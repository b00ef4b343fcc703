/** Scheduler ticks that overlap, a task put back to pending in between, and an operator's "run now":
    every store call and send is a step of its own.

    A call is one processTask of a tick, started on a task that was due when listed, or one RunNow of
    an operator. Others may give a task any status but pending; only a requeue does that. */
module Ticks {
  import opened Wrappers
  import opened Scheduler
  import Recurrence
  import Schedules

  /** Where a call is: about to claim, past its claim, holding the record RunNow read, holding the
      record dispatchNow writes back, past RunNow, holding the record with the next run in it. An
      operator's call begins past the claim. */
  datatype Stage =
    | Listed
    | Claimed
    | Holding(copy: DirectTask)
    | Writing(copy: DirectTask)
    | Ran
    | Saving(copy: DirectTask)

  /** A call, with the schedule its listing showed; an operator's call has none to advance. */
  datatype Job = Job(id: string, schedule: Schedules.Schedule, operator: bool, stage: Stage)

  const ASAP := Schedules.Schedule(Schedules.Asap, None, None)

  /** The store, the calls under way, the requeues past their check, and the claims that succeeded. */
  datatype Ticking = Ticking(store: State, jobs: map<nat, Job>, requeues: map<nat, string>, claims: seq<string>)

  datatype Step =
    | Start(j: nat, id: string, now: int)
    | Operate(j: nat, id: string)
    | Claim(j: nat)
    | Read(j: nat)
    | Send(j: nat, ok: bool)
    | Write(j: nat)
    | Refresh(j: nat, now: int)
    | Save(j: nat)
    | RequeueRead(r: nat, id: string)
    | RequeueWrite(r: nat)
    | Other(id: string, status: Status)

  predicate IsJobStep(step: Step) {
    step.Claim? || step.Read? || step.Send? || step.Write? || step.Refresh? || step.Save?
  }

  predicate Enabled(s: Ticking, step: Step) {
    match step
    case Start(j, id, now) => j !in s.jobs && id in s.store.tasks && IsDue(s.store.tasks[id], now)
    case Operate(j, _) => j !in s.jobs
    case Claim(j) => j in s.jobs && s.jobs[j].stage == Listed
    case Read(j) => j in s.jobs && s.jobs[j].stage == Claimed
    case Send(j, _) => j in s.jobs && s.jobs[j].stage.Holding?
    case Write(j) => j in s.jobs && s.jobs[j].stage.Writing?
    case Refresh(j, _) => j in s.jobs && s.jobs[j].stage == Ran
    case Save(j) => j in s.jobs && s.jobs[j].stage.Saving?
    case RequeueRead(r, id) => r !in s.requeues && id in s.store.tasks && s.store.tasks[id].status != Running
    case RequeueWrite(r) => r in s.requeues
    case Other(id, status) => id in s.store.tasks && status != Pending
  }

  function Advance(s: Ticking, j: nat, stage: Stage): Ticking
    requires j in s.jobs
  {
    s.(jobs := s.jobs[j := s.jobs[j].(stage := stage)])
  }

  function Finish(s: Ticking, j: nat): Ticking {
    s.(jobs := s.jobs - {j})
  }

  function ClaimNext(s: Ticking, j: nat): Ticking
    requires j in s.jobs
  {
    var (store, claimed) := ClaimDue(s.store, s.jobs[j].id);
    if claimed == Some(true) then Advance(s, j, Claimed).(store := store, claims := s.claims + [s.jobs[j].id])
    else Finish(s, j)
  }

  function ReadNext(s: Ticking, j: nat, already: set<Status>): Ticking
    requires j in s.jobs
  {
    var id := s.jobs[j].id;
    if id !in s.store.tasks then Finish(s, j)
    else if s.store.tasks[id].status in already then Advance(s, j, Ran)
    else Advance(s, j, Holding(s.store.tasks[id]))
  }

  function SendNext(s: Ticking, j: nat, ok: bool): Ticking
    requires j in s.jobs && s.jobs[j].stage.Holding?
  {
    var copy := s.jobs[j].stage.copy;
    var t := Advance(s, j, Writing(copy.(status := if ok then Running else Failed)));
    if ok then t.(store := s.store.(sent := s.store.sent + [s.jobs[j].id])) else t
  }

  /** A failed send ends the call once it is recorded. */
  function WriteNext(s: Ticking, j: nat): Ticking
    requires j in s.jobs && s.jobs[j].stage.Writing?
  {
    var copy := s.jobs[j].stage.copy;
    var t := s.(store := Put(s.store, copy));
    if copy.status == Failed then Finish(t, j) else Advance(t, j, Ran)
  }

  predicate Recurs(job: Job) {
    job.schedule.mode == Schedules.Recurring && job.schedule.rule.Some?
  }

  function RefreshNext(s: Ticking, j: nat, now: int): Ticking
    requires j in s.jobs
  {
    var job := s.jobs[j];
    if !Recurs(job) || job.id !in s.store.tasks then Finish(s, j)
    else
      var next := Schedules.AdvanceToFuture(job.schedule, now);
      Advance(s, j, Saving(s.store.tasks[job.id].(nextRunAt := next)))
  }

  /** What a requeue writes: pending, to run at once, and off the due list. */
  function Requeued(id: string): DirectTask {
    DirectTask(id, Pending, ASAP, None)
  }

  function Next(s: Ticking, step: Step, already: set<Status>): Ticking
    requires Enabled(s, step)
  {
    match step
    case Start(j, id, _) => s.(jobs := s.jobs[j := Job(id, s.store.tasks[id].schedule, false, Listed)])
    case Operate(j, id) => s.(jobs := s.jobs[j := Job(id, ASAP, true, Claimed)])
    case Claim(j) => ClaimNext(s, j)
    case Read(j) => ReadNext(s, j, already)
    case Send(j, ok) => SendNext(s, j, ok)
    case Write(j) => WriteNext(s, j)
    case Refresh(j, now) => RefreshNext(s, j, now)
    case Save(j) => Finish(s.(store := Put(s.store, s.jobs[j].stage.copy)), j)
    case RequeueRead(r, id) => s.(requeues := s.requeues[r := id])
    case RequeueWrite(r) => s.(store := Put(s.store, Requeued(s.requeues[r])), requeues := s.requeues - {r})
    case Other(id, status) => s.(store := Put(s.store, s.store.tasks[id].(status := status)))
  }

  ghost predicate Moves(already: set<Status>, s: Ticking, step: Step, t: Ticking) {
    Enabled(s, step) && t == Next(s, step, already)
  }

  ghost predicate IsRun(already: set<Status>, states: seq<Ticking>, steps: seq<Step>) {
    && |states| == |steps| + 1
    && Keyed(states[0].store) && states[0].store.sent == []
    && states[0].jobs == map[] && states[0].requeues == map[] && states[0].claims == []
    && forall n {:trigger steps[n]} | 0 <= n < |steps| :: Moves(already, states[n], steps[n], states[n + 1])
  }

  // ---------------------------------------------------------------- records that calls hold

  /** The records that calls hold are their own tasks', of tasks in the store; those that dispatchNow
      writes back are not pending, and operators hold none with a next run. */
  ghost predicate CopyOk(s: Ticking, job: Job) {
    && (job.stage.Holding? || job.stage.Writing? || job.stage.Saving? ==>
          job.stage.copy.id == job.id && job.id in s.store.tasks)
    && (job.stage.Writing? ==> job.stage.copy.status == Running || job.stage.copy.status == Failed)
    && (job.operator ==> job.schedule == ASAP && !job.stage.Listed? && !job.stage.Saving?)
  }

  ghost predicate CopiesOk(s: Ticking) {
    && Keyed(s.store)
    && (forall r | r in s.requeues :: s.requeues[r] in s.store.tasks)
    && forall j | j in s.jobs :: CopyOk(s, s.jobs[j])
  }

  lemma CopiesKept(s: Ticking, step: Step, already: set<Status>)
    requires CopiesOk(s) && Enabled(s, step)
    ensures CopiesOk(Next(s, step, already))
  {
    var t := Next(s, step, already);
    StoreGrows(s, step, already);
    forall j | j in t.jobs ensures CopyOk(t, t.jobs[j]) {
      if IsJobStep(step) && step.j == j {
        OwnCopyKept(s, step, already);
      } else {
        OtherJobs(s, step, already, j);
        assert j in s.jobs ==> CopyOk(s, s.jobs[j]);
      }
    }
  }

  lemma StoreGrows(s: Ticking, step: Step, already: set<Status>)
    requires CopiesOk(s) && Enabled(s, step)
    ensures var t := Next(s, step, already);
      && Keyed(t.store) && s.store.tasks.Keys <= t.store.tasks.Keys
      && (forall r | r in t.requeues :: t.requeues[r] in t.store.tasks)
  {
    if IsJobStep(step) {
      assert CopyOk(s, s.jobs[step.j]);
    }
  }

  lemma OwnCopyKept(s: Ticking, step: Step, already: set<Status>)
    requires CopiesOk(s) && Enabled(s, step) && IsJobStep(step)
    ensures var t := Next(s, step, already); step.j in t.jobs ==> CopyOk(t, t.jobs[step.j])
  {
    assert CopyOk(s, s.jobs[step.j]);
  }

  /** A step leaves every call but its own as it was, and a new call begins at its first stage. */
  lemma OtherJobs(s: Ticking, step: Step, already: set<Status>, j: nat)
    requires Enabled(s, step) && j in Next(s, step, already).jobs && !(IsJobStep(step) && step.j == j)
    ensures var t := Next(s, step, already);
      && (j in s.jobs ==> t.jobs[j] == s.jobs[j])
      && (j !in s.jobs ==> step.Start? || step.Operate?)
      && (j !in s.jobs && step.Start? ==> !t.jobs[j].operator && t.jobs[j].stage == Listed)
      && (j !in s.jobs && step.Operate? ==> t.jobs[j] == Job(step.id, ASAP, true, Claimed))
  {
  }

  lemma {:induction false} CopiesHold(already: set<Status>, states: seq<Ticking>, steps: seq<Step>, n: nat)
    requires IsRun(already, states, steps) && n < |states|
    ensures CopiesOk(states[n])
  {
    if n > 0 {
      CopiesHold(already, states, steps, n - 1);
      assert Moves(already, states[n - 1], steps[n - 1], states[n]);
      CopiesKept(states[n - 1], steps[n - 1], already);
    }
  }

  /** All that a step does to a stored task and to the messages sent: a claim of a pending task, the
      writing back of a record a call holds, a requeue's write, another's change of status, and a send. */
  lemma StoreEffect(s: Ticking, step: Step, already: set<Status>, id: string)
    requires CopiesOk(s) && Enabled(s, step) && id in s.store.tasks
    ensures var (before, t) := (s.store.tasks[id], Next(s, step, already));
      && id in t.store.tasks
      && t.store.tasks[id] ==
           (if step.Claim? && s.jobs[step.j].id == id && before.status == Pending then before.(status := Dispatching)
            else if (step.Write? || step.Save?) && s.jobs[step.j].id == id then s.jobs[step.j].stage.copy
            else if step.RequeueWrite? && s.requeues[step.r] == id
            then DirectTask(id, Pending, Schedules.Schedule(Schedules.Asap, None, None), None)
            else if step.Other? && step.id == id then before.(status := step.status)
            else before)
      && t.store.sent == s.store.sent + (if step.Send? && step.ok then [s.jobs[step.j].id] else [])
  {
    assert s.store.sent + [] == s.store.sent;
    if IsJobStep(step) {
      assert CopyOk(s, s.jobs[step.j]);
    }
  }

  /** In every run a requeue past its check saw its task in the store, and not running. */
  lemma {:induction false} RequeuesAreChecked(
      already: set<Status>, states: seq<Ticking>, steps: seq<Step>, n: nat, r: nat)
    requires IsRun(already, states, steps) && n < |states| && r in states[n].requeues
    ensures exists k: nat ::
              && k < n && steps[k] == RequeueRead(r, states[n].requeues[r])
              && states[n].requeues[r] in states[k].store.tasks
              && states[k].store.tasks[states[n].requeues[r]].status != Running
  {
    var (before, step) := (states[n - 1], steps[n - 1]);
    assert Moves(already, before, step, states[n]);
    RequeueHeld(already, before, step, states[n], r);
    if step != RequeueRead(r, states[n].requeues[r]) {
      RequeuesAreChecked(already, states, steps, n - 1, r);
    }
  }

  lemma RequeueHeld(already: set<Status>, s: Ticking, step: Step, t: Ticking, r: nat)
    requires Moves(already, s, step, t) && r in t.requeues
    ensures || (&& step == RequeueRead(r, t.requeues[r]) && t.requeues[r] in s.store.tasks
                && s.store.tasks[t.requeues[r]].status != Running)
            || (r in s.requeues && s.requeues[r] == t.requeues[r])
  {
  }

  // ---------------------------------------------------------------- without requeues

  predicate Distinct(ids: seq<string>) {
    forall i, k | 0 <= i < k < |ids| :: ids[i] != ids[k]
  }

  /** Steps of ticks, and others' changes that leave the tasks other than pending. */
  predicate TickStep(step: Step) {
    !step.Operate? && !step.RequeueWrite?
  }

  /** A claimed task is not pending in the store, nor in any record a call will write back. */
  ghost predicate JobOk(s: Ticking, job: Job) {
    && !job.operator
    && (job.stage != Listed ==> job.id in s.claims)
    && (job.stage == Claimed || job.stage.Holding? ==> job.id !in s.store.sent)
    && (job.stage.Holding? ==> job.stage.copy.id == job.id)
    && (job.stage.Writing? || job.stage.Saving? ==> job.stage.copy.id == job.id && job.stage.copy.status != Pending)
  }

  ghost predicate StoreOk(s: Ticking) {
    Keyed(s.store) && forall id | id in s.claims :: id in s.store.tasks && s.store.tasks[id].status != Pending
  }

  ghost predicate ListsOk(s: Ticking) {
    Distinct(s.claims) && Distinct(s.store.sent) && forall id | id in s.store.sent :: id in s.claims
  }

  ghost predicate OneCallPerClaim(s: Ticking) {
    forall j, k | j in s.jobs && k in s.jobs && j != k && s.jobs[j].stage != Listed && s.jobs[k].stage != Listed ::
      s.jobs[j].id != s.jobs[k].id
  }

  ghost predicate Inv(s: Ticking) {
    StoreOk(s) && ListsOk(s) && OneCallPerClaim(s) && forall j | j in s.jobs :: JobOk(s, s.jobs[j])
  }

  lemma StoreKept(s: Ticking, step: Step, already: set<Status>)
    requires Inv(s) && Enabled(s, step) && TickStep(step)
    ensures StoreOk(Next(s, step, already))
  {
    if IsJobStep(step) {
      assert JobOk(s, s.jobs[step.j]);
    }
  }

  lemma ListsKept(s: Ticking, step: Step, already: set<Status>)
    requires Inv(s) && Enabled(s, step) && TickStep(step)
    ensures ListsOk(Next(s, step, already))
  {
    if IsJobStep(step) {
      assert JobOk(s, s.jobs[step.j]);
    }
  }

  lemma CallsKept(s: Ticking, step: Step, already: set<Status>)
    requires Inv(s) && Enabled(s, step) && TickStep(step)
    ensures OneCallPerClaim(Next(s, step, already))
  {
    forall j | j in s.jobs ensures JobOk(s, s.jobs[j]) {
    }
  }

  lemma JobsKept(s: Ticking, step: Step, already: set<Status>, j: nat)
    requires Inv(s) && Enabled(s, step) && TickStep(step)
    requires j in Next(s, step, already).jobs
    ensures JobOk(Next(s, step, already), Next(s, step, already).jobs[j])
  {
    if IsJobStep(step) && step.j == j {
      OwnJobKept(s, step, already);
    } else {
      OtherJobs(s, step, already, j);
      OtherJobKept(s, step, already, j);
    }
  }

  lemma OwnJobKept(s: Ticking, step: Step, already: set<Status>)
    requires Inv(s) && Enabled(s, step) && IsJobStep(step)
    ensures var t := Next(s, step, already); step.j in t.jobs ==> JobOk(t, t.jobs[step.j])
  {
    assert JobOk(s, s.jobs[step.j]);
  }

  lemma OtherJobKept(s: Ticking, step: Step, already: set<Status>, j: nat)
    requires Inv(s) && Enabled(s, step) && TickStep(step)
    requires var t := Next(s, step, already);
             j in t.jobs && (j in s.jobs ==> t.jobs[j] == s.jobs[j]) && !(IsJobStep(step) && step.j == j)
    requires j !in s.jobs ==> !Next(s, step, already).jobs[j].operator && Next(s, step, already).jobs[j].stage == Listed
    ensures JobOk(Next(s, step, already), Next(s, step, already).jobs[j])
  {
    var t := Next(s, step, already);
    if j in s.jobs {
      assert JobOk(s, s.jobs[j]);
      assert step.Send? && t.jobs[j].stage != Listed ==> s.jobs[step.j].id != t.jobs[j].id;
      assert forall id | id in s.claims :: id in t.claims;
    }
  }

  lemma StepKeepsInv(s: Ticking, step: Step, already: set<Status>)
    requires Inv(s) && Enabled(s, step) && TickStep(step)
    ensures Inv(Next(s, step, already))
  {
    StoreKept(s, step, already);
    ListsKept(s, step, already);
    CallsKept(s, step, already);
    forall j | j in Next(s, step, already).jobs ensures JobOk(Next(s, step, already), Next(s, step, already).jobs[j]) {
      JobsKept(s, step, already, j);
    }
  }

  ghost predicate OnlyTicks(steps: seq<Step>) {
    forall n | 0 <= n < |steps| :: TickStep(steps[n])
  }

  lemma {:induction false} InvHolds(already: set<Status>, states: seq<Ticking>, steps: seq<Step>, n: nat)
    requires IsRun(already, states, steps) && OnlyTicks(steps) && n < |states|
    ensures Inv(states[n])
  {
    if n > 0 {
      InvHolds(already, states, steps, n - 1);
      StepKeepsInv(states[n - 1], steps[n - 1], already);
    }
  }

  /** Ticks are safe to run concurrently: however many overlap, in whatever order their steps fall,
      each task is claimed at most once and its message is sent at most once, and only after its claim. */
  lemma ConcurrentTicksClaimOnce(already: set<Status>, states: seq<Ticking>, steps: seq<Step>, n: nat)
    requires IsRun(already, states, steps) && OnlyTicks(steps) && n < |states|
    ensures Distinct(states[n].claims) && Distinct(states[n].store.sent)
    ensures forall id | id in states[n].store.sent :: id in states[n].claims
  {
    InvHolds(already, states, steps, n);
  }

  /** Only a pending task is ever claimed, and it stays claimed: two successful claims of one task are
      the same step. */
  lemma ClaimsAreOneStep(already: set<Status>, states: seq<Ticking>, steps: seq<Step>, m: nat, n: nat)
    requires IsRun(already, states, steps) && OnlyTicks(steps)
    requires m < n < |steps| && steps[m].Claim? && steps[n].Claim?
    requires states[m].jobs[steps[m].j].id == states[n].jobs[steps[n].j].id
    requires ClaimDue(states[m].store, states[m].jobs[steps[m].j].id).1 == Some(true)
    ensures ClaimDue(states[n].store, states[n].jobs[steps[n].j].id).1 == Some(false)
  {
    var id := states[m].jobs[steps[m].j].id;
    assert states[m + 1].claims[|states[m].claims|] == id;
    ClaimsStay(already, states, steps, m + 1, n, id);
    InvHolds(already, states, steps, n);
  }

  lemma {:induction false} ClaimsStay(
      already: set<Status>, states: seq<Ticking>, steps: seq<Step>, m: nat, n: nat, id: string)
    requires IsRun(already, states, steps) && m <= n < |states| && id in states[m].claims
    ensures id in states[n].claims
  {
    if m < n {
      ClaimsStay(already, states, steps, m, n - 1, id);
      assert Moves(already, states[n - 1], steps[n - 1], states[n]);
    }
  }

  // ---------------------------------------------------------------- with requeues

  predicate Pends(s: Ticking, id: string) {
    id in s.store.tasks && s.store.tasks[id].status == Pending
  }

  /** A requeue that makes the task pending. */
  predicate IsRequest(s: Ticking, step: Step, id: string) {
    step.RequeueWrite? && Enabled(s, step) && s.requeues[step.r] == id && !Pends(s, id)
  }

  /** A save that makes the task pending: its record was read while the task was pending. */
  predicate Rearms(s: Ticking, step: Step, id: string) {
    && step.Save? && Enabled(s, step) && s.jobs[step.j].id == id && s.jobs[step.j].stage.copy.status == Pending
    && !Pends(s, id)
  }

  lemma BecomesPendingIff(s: Ticking, step: Step, already: set<Status>, id: string)
    requires CopiesOk(s) && Enabled(s, step)
    ensures !Pends(s, id) && Pends(Next(s, step, already), id) <==> IsRequest(s, step, id) || Rearms(s, step, id)
  {
    if IsJobStep(step) {
      assert CopyOk(s, s.jobs[step.j]);
    }
  }

  /** A recurring call between its run and its save sees its task not pending, and saves no pending record. */
  ghost predicate RanOk(s: Ticking, job: Job) {
    && (job.stage == Ran && Recurs(job) ==> !Pends(s, job.id))
    && (job.stage.Saving? ==> job.stage.copy.status != Pending)
  }

  ghost predicate RanOkFor(s: Ticking, id: string) {
    forall j | j in s.jobs && s.jobs[j].id == id :: RanOk(s, s.jobs[j])
  }

  /** A recurring call past its run that has not yet read the record it will save. */
  predicate Awaits(job: Job, id: string) {
    job.id == id && job.stage == Ran && Recurs(job)
  }

  /** A tick's call on the task that can still claim it, or still come to save a next run. */
  predicate Competes(job: Job, id: string) {
    && job.id == id && !job.operator
    && (|| job.stage.Listed?
        || (Recurs(job) && (job.stage.Claimed? || job.stage.Holding? || job.stage.Ran?
                            || (job.stage.Writing? && job.stage.copy.status == Running))))
  }

  /** The requeue falls on a task with a call between its run and its read, while another call of a
      tick is at the task. */
  ghost predicate Dangerous(s: Ticking, step: Step) {
    && step.RequeueWrite? && step.r in s.requeues
    && exists j, k :: j in s.jobs && k in s.jobs && j != k && Awaits(s.jobs[j], s.requeues[step.r])
                      && Competes(s.jobs[k], s.requeues[step.r])
  }

  /** The task has one such call left, no other competes with it, and no tick can list the task. */
  ghost predicate Alone(s: Ticking, id: string, j: nat) {
    && j in s.jobs && s.jobs[j].id == id && Recurs(s.jobs[j]) && (s.jobs[j].stage.Ran? || s.jobs[j].stage.Saving?)
    && (forall k | k in s.jobs && k != j && s.jobs[k].id == id :: NoCompetitor(s.jobs[k], id))
    && id in s.store.tasks && (Pends(s, id) ==> s.store.tasks[id].nextRunAt.None?)
  }

  ghost predicate NoCompetitor(job: Job, id: string) {
    !Competes(job, id) && (job.stage.Saving? ==> job.stage.copy.status != Pending)
  }

  ghost predicate ModeInv(s: Ticking, id: string) {
    RanOkFor(s, id) || exists j :: Alone(s, id, j)
  }

  lemma RanKept(s: Ticking, step: Step, already: set<Status>, j: nat, id: string)
    requires CopiesOk(s) && RanOkFor(s, id) && Enabled(s, step) && Pending !in already
    requires step.RequeueWrite? ==> forall k | k in s.jobs :: !(Awaits(s.jobs[k], id) && s.requeues[step.r] == id)
    requires j in Next(s, step, already).jobs && Next(s, step, already).jobs[j].id == id
    ensures RanOk(Next(s, step, already), Next(s, step, already).jobs[j])
  {
    BecomesPendingIff(s, step, already, id);
    if IsJobStep(step) {
      assert CopyOk(s, s.jobs[step.j]) && (s.jobs[step.j].id == id ==> RanOk(s, s.jobs[step.j]));
    }
    if !(IsJobStep(step) && step.j == j) {
      OtherJobs(s, step, already, j);
      assert j in s.jobs ==> RanOk(s, s.jobs[j]);
    }
  }

  /** A requeue that falls on a call between its run and its read leaves the call alone with the task. */
  lemma RequeueLeavesAlone(s: Ticking, step: Step, already: set<Status>, id: string, j: nat)
    requires CopiesOk(s) && RanOkFor(s, id) && Enabled(s, step) && step.RequeueWrite? && s.requeues[step.r] == id
    requires j in s.jobs && Awaits(s.jobs[j], id) && !Dangerous(s, step)
    ensures Alone(Next(s, step, already), id, j)
  {
    forall k | k in s.jobs && k != j && s.jobs[k].id == id ensures NoCompetitor(s.jobs[k], id) {
      assert RanOk(s, s.jobs[k]);
    }
  }

  lemma RanOkForKept(s: Ticking, step: Step, already: set<Status>, id: string)
    requires CopiesOk(s) && RanOkFor(s, id) && Enabled(s, step) && Pending !in already && !Dangerous(s, step)
    ensures ModeInv(Next(s, step, already), id)
  {
    var t := Next(s, step, already);
    if step.RequeueWrite? && s.requeues[step.r] == id && exists j :: j in s.jobs && Awaits(s.jobs[j], id) {
      var j :| j in s.jobs && Awaits(s.jobs[j], id);
      RequeueLeavesAlone(s, step, already, id, j);
    } else {
      forall j | j in t.jobs && t.jobs[j].id == id ensures RanOk(t, t.jobs[j]) {
        RanKept(s, step, already, j, id);
      }
    }
  }

  /** A call that does not compete never comes to. */
  lemma StaysOut(s: Ticking, step: Step, already: set<Status>, id: string, j: nat, k: nat)
    requires CopiesOk(s) && Alone(s, id, j) && Enabled(s, step) && k != j
    requires k in Next(s, step, already).jobs && Next(s, step, already).jobs[k].id == id
    ensures NoCompetitor(Next(s, step, already).jobs[k], id)
  {
    if IsJobStep(step) && step.j == k {
      assert CopyOk(s, s.jobs[k]) && NoCompetitor(s.jobs[k], id);
    } else {
      OtherJobs(s, step, already, k);
      assert k in s.jobs ==> NoCompetitor(s.jobs[k], id);
    }
  }

  lemma AloneStore(s: Ticking, step: Step, already: set<Status>, id: string, j: nat)
    requires CopiesOk(s) && Alone(s, id, j) && Enabled(s, step) && step != Save(j)
    ensures var t := Next(s, step, already);
      && id in t.store.tasks && (Pends(t, id) ==> t.store.tasks[id].nextRunAt.None?)
      && j in t.jobs && t.jobs[j].id == id && Recurs(t.jobs[j]) && (t.jobs[j].stage.Ran? || t.jobs[j].stage.Saving?)
  {
    if IsJobStep(step) {
      assert CopyOk(s, s.jobs[step.j]);
      assert step.j != j && s.jobs[step.j].id == id ==> NoCompetitor(s.jobs[step.j], id);
    }
  }

  lemma AloneKept(s: Ticking, step: Step, already: set<Status>, id: string, j: nat)
    requires CopiesOk(s) && Alone(s, id, j) && Enabled(s, step)
    ensures ModeInv(Next(s, step, already), id)
  {
    var t := Next(s, step, already);
    forall k | k in t.jobs && k != j && t.jobs[k].id == id ensures NoCompetitor(t.jobs[k], id) {
      StaysOut(s, step, already, id, j, k);
    }
    if step == Save(j) {
      CopiesKept(s, step, already);
      forall k | k in t.jobs && t.jobs[k].id == id ensures RanOk(t, t.jobs[k]) {
        assert NoCompetitor(t.jobs[k], id) && CopyOk(t, t.jobs[k]);
      }
    } else {
      AloneStore(s, step, already, id, j);
      assert Alone(t, id, j);
    }
  }

  lemma ModeKept(s: Ticking, step: Step, already: set<Status>, id: string)
    requires CopiesOk(s) && ModeInv(s, id) && Enabled(s, step) && Pending !in already && !Dangerous(s, step)
    ensures ModeInv(Next(s, step, already), id)
  {
    if RanOkFor(s, id) {
      RanOkForKept(s, step, already, id);
    } else {
      var j :| Alone(s, id, j);
      AloneKept(s, step, already, id, j);
    }
  }

  function Count(ids: seq<string>, id: string): nat {
    multiset(ids)[id]
  }

  function One(b: bool): nat {
    if b then 1 else 0
  }

  /** How often the task was requested in the first n steps. */
  ghost function Requested(states: seq<Ticking>, steps: seq<Step>, n: nat, id: string): nat
    requires n <= |steps| < |states|
  {
    if n == 0 then 0 else Requested(states, steps, n - 1, id) + One(IsRequest(states[n - 1], steps[n - 1], id))
  }

  lemma ClaimCounts(s: Ticking, j: nat, id: string)
    requires CopiesOk(s) && j in s.jobs
    ensures var t := ClaimNext(s, j);
            Count(t.claims, id) + One(Pends(t, id)) <= Count(s.claims, id) + One(Pends(s, id))
  {
  }

  predicate SavesPending(job: Job, id: string) {
    job.id == id && job.stage.Saving? && job.stage.copy.status == Pending
  }

  /** The task is pending, or will be once a call has saved. */
  ghost predicate WillPend(s: Ticking, id: string) {
    Pends(s, id) || exists j :: j in s.jobs && SavesPending(s.jobs[j], id)
  }

  /** Only a claim lowers what is left to claim, and only a request raises it. */
  lemma QuietStep(s: Ticking, step: Step, already: set<Status>, id: string)
    requires CopiesOk(s) && Enabled(s, step) && !step.Claim?
    ensures var t := Next(s, step, already);
            t.claims == s.claims && (WillPend(t, id) ==> WillPend(s, id) || IsRequest(s, step, id))
  {
    var t := Next(s, step, already);
    BecomesPendingIff(s, step, already, id);
    if Pends(t, id) && Rearms(s, step, id) {
      assert SavesPending(s.jobs[step.j], id);
    }
    forall j | j in t.jobs && SavesPending(t.jobs[j], id) ensures WillPend(s, id) {
      if IsJobStep(step) && step.j == j {
        assert step.Refresh? && Pends(s, id);
      } else {
        OtherJobs(s, step, already, j);
        assert SavesPending(s.jobs[j], id);
      }
    }
  }

  lemma ClaimStep(s: Ticking, j: nat, id: string)
    requires CopiesOk(s) && Enabled(s, Claim(j))
    requires s.jobs[j].id == id ==> forall k | k in s.jobs :: !SavesPending(s.jobs[k], id)
    ensures var t := ClaimNext(s, j);
            Count(t.claims, id) + One(WillPend(t, id)) <= Count(s.claims, id) + One(WillPend(s, id))
  {
    var t := ClaimNext(s, j);
    ClaimCounts(s, j, id);
    forall k | k in t.jobs && SavesPending(t.jobs[k], id) ensures SavesPending(s.jobs[k], id) {
      assert k in s.jobs;
    }
  }

  lemma StepUsesRequest(s: Ticking, step: Step, already: set<Status>, id: string)
    requires CopiesOk(s) && ModeInv(s, id) && Enabled(s, step)
    ensures var t := Next(s, step, already);
            Count(t.claims, id) + One(WillPend(t, id))
              <= Count(s.claims, id) + One(WillPend(s, id)) + One(IsRequest(s, step, id))
  {
    if step.Claim? {
      if s.jobs[step.j].id == id {
        forall k | k in s.jobs ensures !SavesPending(s.jobs[k], id) {
          ClaimantNotAlone(s, step.j, id, k);
        }
      }
      ClaimStep(s, step.j, id);
    } else {
      QuietStep(s, step, already, id);
    }
  }

  lemma ClaimantNotAlone(s: Ticking, j: nat, id: string, k: nat)
    requires CopiesOk(s) && ModeInv(s, id) && Enabled(s, Claim(j)) && s.jobs[j].id == id && k in s.jobs
    ensures !SavesPending(s.jobs[k], id)
  {
    assert CopyOk(s, s.jobs[j]) && Competes(s.jobs[j], id);
    assert RanOkFor(s, id);
  }

  /** As long as no requeue falls on a task with a recurring call between its run and the read of the
      record it saves, while another call of a tick is at the task, each task is claimed at most once
      for every request, its first pending state included, whatever overlaps. */
  lemma {:induction false} ClaimsPerRequest(
      already: set<Status>, states: seq<Ticking>, steps: seq<Step>, n: nat, id: string)
    requires IsRun(already, states, steps) && n < |states| && Pending !in already
    requires forall k | 0 <= k < n :: !Dangerous(states[k], steps[k])
    ensures ModeInv(states[n], id)
    ensures Count(states[n].claims, id) + One(WillPend(states[n], id))
              <= One(Pends(states[0], id)) + Requested(states, steps, n, id)
  {
    if n == 0 {
      assert WillPend(states[0], id) == Pends(states[0], id);
    } else {
      ClaimsPerRequest(already, states, steps, n - 1, id);
      CopiesHold(already, states, steps, n - 1);
      assert Moves(already, states[n - 1], steps[n - 1], states[n]);
      ModeKept(states[n - 1], steps[n - 1], already, id);
      StepUsesRequest(states[n - 1], steps[n - 1], already, id);
    }
  }

  // ---------------------------------------------------------------- the exception, and the wired loop

  ghost predicate Follows(already: set<Status>, states: seq<Ticking>, steps: seq<Step>) {
    && |states| == |steps| + 1
    && forall n {:trigger steps[n]} | 0 <= n < |steps| :: Moves(already, states[n], steps[n], states[n + 1])
  }

  lemma Extend(already: set<Status>, states: seq<Ticking>, steps: seq<Step>, step: Step)
    returns (more: seq<Ticking>, moreSteps: seq<Step>)
    requires Follows(already, states, steps) && Enabled(states[|steps|], step)
    ensures Follows(already, more, moreSteps) && moreSteps == steps + [step]
    ensures more == states + [Next(states[|steps|], step, already)]
  {
    more, moreSteps := states + [Next(states[|steps|], step, already)], steps + [step];
    forall n | 0 <= n < |moreSteps| ensures Moves(already, more[n], moreSteps[n], more[n + 1]) {
      assert n < |steps| ==> Moves(already, states[n], steps[n], states[n + 1]);
    }
  }

  /** Runs after the requeue, with no further one. */
  ghost predicate AfterRequeue(already: set<Status>, s: Ticking, r: nat, states: seq<Ticking>, steps: seq<Step>) {
    && Follows(already, states, steps) && states[0] == s && |steps| > 0 && steps[0] == RequeueWrite(r)
    && forall k | 0 < k < |steps| :: !steps[k].RequeueWrite?
  }

  ghost predicate ClaimedTwice(
    already: set<Status>, s: Ticking, r: nat, states: seq<Ticking>, steps: seq<Step>, id: string)
  {
    AfterRequeue(already, s, r, states, steps) && Count(states[|steps|].claims, id) >= Count(s.claims, id) + 2
  }

  lemma ExtendAfter(already: set<Status>, s: Ticking, r: nat, states: seq<Ticking>, steps: seq<Step>, step: Step)
    returns (more: seq<Ticking>, moreSteps: seq<Step>)
    requires AfterRequeue(already, s, r, states, steps) && CopiesOk(states[|steps|])
    requires Enabled(states[|steps|], step) && !step.RequeueWrite?
    ensures AfterRequeue(already, s, r, more, moreSteps)
    ensures moreSteps == steps + [step] && more == states + [Next(states[|steps|], step, already)]
    ensures CopiesOk(more[|moreSteps|])
  {
    more, moreSteps := Extend(already, states, steps, step);
    CopiesKept(states[|steps|], step, already);
  }

  /** The requeue, and the first call reads the pending record. */
  lemma ReadsPending(already: set<Status>, s: Ticking, r: nat, j: nat, now: int)
    returns (states: seq<Ticking>, steps: seq<Step>)
    requires CopiesOk(s) && r in s.requeues && j in s.jobs && Awaits(s.jobs[j], s.requeues[r])
    ensures AfterRequeue(already, s, r, states, steps) && steps == [RequeueWrite(r), Refresh(j, now)]
    ensures var t, id := states[2], s.jobs[j].id;
      && CopiesOk(t) && t.claims == s.claims && id in t.store.tasks && t.store.tasks[id] == Requeued(id)
      && t.jobs == s.jobs[j := s.jobs[j].(stage := Saving(DueAt(id, s.jobs[j].schedule, now)))]
  {
    states, steps := Extend(already, [s], [], RequeueWrite(r));
    CopiesKept(s, RequeueWrite(r), already);
    states, steps := ExtendAfter(already, s, r, states, steps, Refresh(j, now));
  }

  /** The pending record with the call's next run in it. */
  function DueAt(id: string, schedule: Schedules.Schedule, now: int): DirectTask {
    Requeued(id).(nextRunAt := Schedules.AdvanceToFuture(schedule, now))
  }

  /** A call that will save a pending, due record: saved, listed by a later tick, and claimed. */
  lemma SavesAndIsClaimed(
      already: set<Status>, s: Ticking, r: nat, states: seq<Ticking>, steps: seq<Step>, j: nat, later: int)
    returns (more: seq<Ticking>, moreSteps: seq<Step>)
    requires AfterRequeue(already, s, r, states, steps) && CopiesOk(states[|steps|])
    requires j in states[|steps|].jobs && states[|steps|].jobs[j].stage.Saving?
    requires IsDue(states[|steps|].jobs[j].stage.copy, later)
    ensures AfterRequeue(already, s, r, more, moreSteps) && CopiesOk(more[|moreSteps|])
    ensures more[|moreSteps|].claims == states[|steps|].claims + [states[|steps|].jobs[j].id]
    ensures forall k | k in states[|steps|].jobs && k != j ::
              k in more[|moreSteps|].jobs && more[|moreSteps|].jobs[k] == states[|steps|].jobs[k]
  {
    var id := states[|steps|].jobs[j].id;
    assert CopyOk(states[|steps|], states[|steps|].jobs[j]);
    more, moreSteps := ExtendAfter(already, s, r, states, steps, Save(j));
    more, moreSteps := ExtendAfter(already, s, r, more, moreSteps, Start(j, id, later));
    more, moreSteps := ExtendAfter(already, s, r, more, moreSteps, Claim(j));
  }

  lemma CountAppend(ids: seq<string>, id: string)
    ensures Count(ids + [id], id) == Count(ids, id) + 1
  {
  }

  /** With a second call still listed, it claims the task before the first one's save. */
  lemma ListedCompetitor(already: set<Status>, s: Ticking, r: nat, j: nat, k: nat)
    returns (states: seq<Ticking>, steps: seq<Step>)
    requires CopiesOk(s) && r in s.requeues && j in s.jobs && Awaits(s.jobs[j], s.requeues[r])
    requires k in s.jobs && k != j && s.jobs[k].id == s.jobs[j].id && s.jobs[k].stage == Listed
    ensures ClaimedTwice(already, s, r, states, steps, s.jobs[j].id)
  {
    var id := s.jobs[j].id;
    states, steps := ReadsPending(already, s, r, j, 0);
    states, steps := ExtendAfter(already, s, r, states, steps, Claim(k));
    var claims := states[|steps|].claims;
    var due := DueAt(id, s.jobs[j].schedule, 0);
    assert claims == s.claims + [id] && states[|steps|].jobs[j].stage == Saving(due);
    states, steps := SavesAndIsClaimed(already, s, r, states, steps, j, due.nextRunAt.value);
    CountAppend(s.claims, id);
    CountAppend(claims, id);
  }

  /** With a second recurring call under way, both come to save a pending record. */
  lemma RunningCompetitor(already: set<Status>, s: Ticking, r: nat, j: nat, k: nat)
    returns (states: seq<Ticking>, steps: seq<Step>)
    requires CopiesOk(s) && r in s.requeues && j in s.jobs && Awaits(s.jobs[j], s.requeues[r]) && Pending !in already
    requires k in s.jobs && k != j && Competes(s.jobs[k], s.jobs[j].id) && !s.jobs[k].stage.Listed?
    ensures ClaimedTwice(already, s, r, states, steps, s.jobs[j].id)
  {
    var id := s.jobs[j].id;
    var due, other := DueAt(id, s.jobs[j].schedule, 0), DueAt(id, s.jobs[k].schedule, 0);
    states, steps := ReadsPending(already, s, r, j, 0);
    states, steps := ComesToRan(already, s, r, states, steps, k, j);
    states, steps := ExtendAfter(already, s, r, states, steps, Save(j));
    var saved := states[|steps|];
    assert saved.store.tasks[id] == due && Awaits(saved.jobs[k], id);
    states, steps := ExtendAfter(already, s, r, states, steps, Refresh(k, 0));
    assert states[|steps|].jobs[k].stage.copy == other;
    states, steps := ListedAndClaimed(already, s, r, states, steps, j, id, due.nextRunAt.value);
    CountAppend(s.claims, id);
    var claims := states[|steps|].claims;
    states, steps := SavesAndIsClaimed(already, s, r, states, steps, k, other.nextRunAt.value);
    CountAppend(claims, id);
  }

  lemma ListedAndClaimed(
      already: set<Status>, s: Ticking, r: nat, states: seq<Ticking>, steps: seq<Step>, j: nat, id: string, later: int)
    returns (more: seq<Ticking>, moreSteps: seq<Step>)
    requires AfterRequeue(already, s, r, states, steps) && CopiesOk(states[|steps|])
    requires j !in states[|steps|].jobs && id in states[|steps|].store.tasks
    requires IsDue(states[|steps|].store.tasks[id], later)
    ensures AfterRequeue(already, s, r, more, moreSteps) && CopiesOk(more[|moreSteps|])
    ensures more[|moreSteps|].claims == states[|steps|].claims + [id]
    ensures forall k | k in states[|steps|].jobs ::
              k in more[|moreSteps|].jobs && more[|moreSteps|].jobs[k] == states[|steps|].jobs[k]
  {
    more, moreSteps := ExtendAfter(already, s, r, states, steps, Start(j, id, later));
    more, moreSteps := ExtendAfter(already, s, r, more, moreSteps, Claim(j));
  }

  /** A recurring call brought to the end of its run, its message sent on the way. */
  lemma ComesToRan(
      already: set<Status>, s: Ticking, r: nat, states: seq<Ticking>, steps: seq<Step>, k: nat, j: nat)
    returns (more: seq<Ticking>, moreSteps: seq<Step>)
    requires AfterRequeue(already, s, r, states, steps) && CopiesOk(states[|steps|]) && Pending !in already
    requires var t := states[|steps|];
      && k in t.jobs && j in t.jobs && j != k && Competes(t.jobs[k], t.jobs[k].id) && !t.jobs[k].stage.Listed?
      && (t.jobs[k].stage.Claimed? ==> Pends(t, t.jobs[k].id))
    ensures AfterRequeue(already, s, r, more, moreSteps) && CopiesOk(more[|moreSteps|])
    ensures var t, u := states[|steps|], more[|moreSteps|];
      && u.claims == t.claims && u.jobs == t.jobs[k := t.jobs[k].(stage := Ran)]
    decreases match states[|steps|].jobs[k].stage
              case Claimed => 3 case Holding(_) => 2 case Writing(_) => 1 case _ => 0
  {
    var t := states[|steps|];
    assert CopyOk(t, t.jobs[k]);
    match t.jobs[k].stage {
      case Claimed =>
        more, moreSteps := ExtendAfter(already, s, r, states, steps, Read(k));
        more, moreSteps := ComesToRan(already, s, r, more, moreSteps, k, j);
      case Holding(_) =>
        more, moreSteps := ExtendAfter(already, s, r, states, steps, Send(k, true));
        more, moreSteps := ComesToRan(already, s, r, more, moreSteps, k, j);
      case Writing(_) =>
        more, moreSteps := ExtendAfter(already, s, r, states, steps, Write(k));
      case Ran =>
        more, moreSteps := states, steps;
        assert t.jobs == t.jobs[k := t.jobs[k].(stage := Ran)];
    }
  }

  lemma {:induction false} ModeHoldsAfter(
      already: set<Status>, s: Ticking, r: nat, states: seq<Ticking>, steps: seq<Step>, n: nat, id: string)
    requires CopiesOk(s) && ModeInv(s, id) && Pending !in already && r in s.requeues && s.requeues[r] == id
    requires AfterRequeue(already, s, r, states, steps) && !Dangerous(s, RequeueWrite(r)) && 0 < n < |states|
    ensures CopiesOk(states[n]) && ModeInv(states[n], id)
    ensures Count(states[n].claims, id) + One(WillPend(states[n], id)) <= Count(s.claims, id) + 1
  {
    assert Moves(already, states[n - 1], steps[n - 1], states[n]);
    if n == 1 {
      CopiesKept(s, steps[0], already);
      ModeKept(s, steps[0], already, id);
    } else {
      ModeHoldsAfter(already, s, r, states, steps, n - 1, id);
      CopiesKept(states[n - 1], steps[n - 1], already);
      ModeKept(states[n - 1], steps[n - 1], already, id);
      StepUsesRequest(states[n - 1], steps[n - 1], already, id);
    }
  }

  /** One requeue can lead to two claims, however the steps fall after it and with no further requeue,
      exactly when it falls on a task with a recurring call between its run and the read of the record
      it saves, while another call of a tick is at the task. */
  lemma RequeueClaimedTwiceIff(already: set<Status>, s: Ticking, r: nat)
    requires CopiesOk(s) && r in s.requeues && ModeInv(s, s.requeues[r]) && Pending !in already
    ensures (exists states, steps :: ClaimedTwice(already, s, r, states, steps, s.requeues[r]))
              <==> Dangerous(s, RequeueWrite(r))
  {
    var id := s.requeues[r];
    if Dangerous(s, RequeueWrite(r)) {
      var j, k :| j in s.jobs && k in s.jobs && j != k && Awaits(s.jobs[j], id) && Competes(s.jobs[k], id);
      if s.jobs[k].stage.Listed? {
        var states, steps := ListedCompetitor(already, s, r, j, k);
      } else {
        var states, steps := RunningCompetitor(already, s, r, j, k);
      }
    } else if states, steps :| ClaimedTwice(already, s, r, states, steps, id) {
      ModeHoldsAfter(already, s, r, states, steps, |steps|, id);
    }
  }

  /** A run that reaches such a requeue, from one due recurring task: two ticks list it, the first one
      claims it and finds it already dispatching, and then it is put back. */
  lemma RequeueIsReached(t: DirectTask, now: int) returns (states: seq<Ticking>, steps: seq<Step>)
    requires IsDue(t, now) && t.schedule.mode == Schedules.Recurring && t.schedule.rule.Some?
    ensures IsRun(LOCAL_ALREADY, states, steps) && states[0].store == State(map[t.id := t], [])
    ensures steps == [Start(0, t.id, now), Start(1, t.id, now), Claim(0), Read(0), RequeueRead(0, t.id)]
    ensures 0 in states[5].requeues && states[5].requeues[0] == t.id && Dangerous(states[5], RequeueWrite(0))
  {
    var s := Ticking(State(map[t.id := t], []), map[], map[], []);
    states, steps := Extend(LOCAL_ALREADY, [s], [], Start(0, t.id, now));
    states, steps := Extend(LOCAL_ALREADY, states, steps, Start(1, t.id, now));
    states, steps := Extend(LOCAL_ALREADY, states, steps, Claim(0));
    assert states[3].store.tasks[t.id].status == Dispatching;
    states, steps := Extend(LOCAL_ALREADY, states, steps, Read(0));
    states, steps := Extend(LOCAL_ALREADY, states, steps, RequeueRead(0, t.id));
    assert Awaits(states[5].jobs[0], t.id) && Competes(states[5].jobs[1], t.id);
  }

  /** A tick's call that has gone past its listing. */
  predicate UnderWay(job: Job) {
    !job.operator && !job.stage.Listed?
  }

  /** The wired loop: ticks follow one another, and a tick goes on to its next task only when the call
      for the last one is over. */
  ghost predicate OneAtATime(states: seq<Ticking>, steps: seq<Step>)
    requires |states| > |steps|
  {
    forall n | 0 <= n < |steps| && steps[n].Claim? :: NoneUnderWay(states[n])
  }

  ghost predicate NoneUnderWay(s: Ticking) {
    forall j | j in s.jobs :: !UnderWay(s.jobs[j])
  }

  ghost predicate OneCall(s: Ticking) {
    forall j, k | j in s.jobs && k in s.jobs && j != k :: !UnderWay(s.jobs[j]) || !UnderWay(s.jobs[k])
  }

  lemma LoneStepUsesPending(s: Ticking, step: Step, already: set<Status>, id: string)
    requires CopiesOk(s) && Enabled(s, step) && OneCall(s) && (step.Claim? ==> NoneUnderWay(s))
    ensures var t := Next(s, step, already);
      && OneCall(t)
      && Count(t.claims, id) + One(WillPend(t, id))
           <= Count(s.claims, id) + One(WillPend(s, id)) + One(IsRequest(s, step, id))
  {
    LoneCallStays(s, step, already);
    if step.Claim? {
      forall k | k in s.jobs ensures !SavesPending(s.jobs[k], id) {
        assert CopyOk(s, s.jobs[k]) && !UnderWay(s.jobs[k]);
      }
      ClaimStep(s, step.j, id);
    } else {
      QuietStep(s, step, already, id);
    }
  }

  lemma LoneCallStays(s: Ticking, step: Step, already: set<Status>)
    requires CopiesOk(s) && Enabled(s, step) && OneCall(s) && (step.Claim? ==> NoneUnderWay(s))
    ensures OneCall(Next(s, step, already))
  {
    var t := Next(s, step, already);
    forall j | j in t.jobs && UnderWay(t.jobs[j])
      ensures j in s.jobs && (UnderWay(s.jobs[j]) || (step.Claim? && step.j == j))
    {
      if !(IsJobStep(step) && step.j == j) {
        OtherJobs(s, step, already, j);
      }
    }
  }

  /** As wired, one loop and no overlap, no condition on requeues is needed: each task is claimed at
      most once for every request, operators and requeues interleaving as they may. */
  lemma {:induction false} WiredLoopClaimsPerRequest(
      already: set<Status>, states: seq<Ticking>, steps: seq<Step>, n: nat, id: string)
    requires IsRun(already, states, steps) && OneAtATime(states, steps) && n < |states|
    ensures OneCall(states[n])
    ensures Count(states[n].claims, id) + One(WillPend(states[n], id))
              <= One(Pends(states[0], id)) + Requested(states, steps, n, id)
  {
    if n == 0 {
      assert WillPend(states[0], id) == Pends(states[0], id);
    } else {
      WiredLoopClaimsPerRequest(already, states, steps, n - 1, id);
      CopiesHold(already, states, steps, n - 1);
      var s, step := states[n - 1], steps[n - 1];
      assert Moves(already, s, step, states[n]) && (step.Claim? ==> NoneUnderWay(s));
      LoneStepUsesPending(s, step, already, id);
    }
  }

  // ---------------------------------------------------------------- operators alone

  predicate OperatorStep(step: Step) {
    step.Operate? || step.Read? || step.Send? || step.Write? || step.Refresh?
  }

  /** A call that has read a task to send and not yet recorded the outcome. */
  predicate Busy(job: Job, id: string) {
    job.id == id && (job.stage.Holding? || job.stage.Writing?)
  }

  /** A call reads a task it will send while another call is at it. */
  ghost predicate ReadsBusy(s: Ticking, step: Step) {
    && step.Read? && Enabled(s, step)
    && var id := s.jobs[step.j].id;
    && id in s.store.tasks && s.store.tasks[id].status !in LOCAL_ALREADY
    && exists k :: k in s.jobs && k != step.j && Busy(s.jobs[k], id)
  }

  ghost predicate OneBusy(s: Ticking) {
    forall j, k, id | j in s.jobs && k in s.jobs && j != k && Busy(s.jobs[j], id) :: !Busy(s.jobs[k], id)
  }

  /** A sent task is running, or its sender is about to record that; no one else is at it. */
  ghost predicate SentOk(s: Ticking, id: string) {
    && id in s.store.tasks
    && (forall j | j in s.jobs && Busy(s.jobs[j], id) ::
          s.jobs[j].stage.Writing? && s.jobs[j].stage.copy.status == Running)
    && (s.store.tasks[id].status == Running || exists j :: j in s.jobs && Busy(s.jobs[j], id))
  }

  ghost predicate SendersOk(s: Ticking) {
    forall j | j in s.jobs && s.jobs[j].stage.Writing? && s.jobs[j].stage.copy.status == Running ::
      s.jobs[j].id in s.store.sent
  }

  ghost predicate OperatorInv(s: Ticking) {
    && CopiesOk(s) && Distinct(s.store.sent) && SendersOk(s) && OneBusy(s)
    && forall id | id in s.store.sent :: SentOk(s, id)
  }

  /** Who is busy after a step was busy before it, or has just read the task. */
  lemma BusyBefore(s: Ticking, step: Step, j: nat, id: string)
    requires Enabled(s, step) && OperatorStep(step)
    ensures var t := Next(s, step, LOCAL_ALREADY);
            j in t.jobs && Busy(t.jobs[j], id) ==>
              && j in s.jobs && s.jobs[j].id == id
              && (Busy(s.jobs[j], id)
                  || (step == Read(j) && id in s.store.tasks && s.store.tasks[id].status !in LOCAL_ALREADY))
  {
    if j in Next(s, step, LOCAL_ALREADY).jobs && !(IsJobStep(step) && step.j == j) {
      OtherJobs(s, step, LOCAL_ALREADY, j);
    }
  }

  lemma OneBusyKept(s: Ticking, step: Step)
    requires OperatorInv(s) && Enabled(s, step) && OperatorStep(step) && !ReadsBusy(s, step)
    ensures OneBusy(Next(s, step, LOCAL_ALREADY))
  {
    var t := Next(s, step, LOCAL_ALREADY);
    forall j, k, id | j in t.jobs && k in t.jobs && j != k && Busy(t.jobs[j], id) ensures !Busy(t.jobs[k], id) {
      BusyBefore(s, step, j, id);
      BusyBefore(s, step, k, id);
    }
  }

  lemma SendersKept(s: Ticking, step: Step)
    requires OperatorInv(s) && Enabled(s, step) && OperatorStep(step)
    ensures SendersOk(Next(s, step, LOCAL_ALREADY)) && Distinct(Next(s, step, LOCAL_ALREADY).store.sent)
  {
    var t := Next(s, step, LOCAL_ALREADY);
    if step.Send? {
      assert Busy(s.jobs[step.j], s.jobs[step.j].id);
      assert s.jobs[step.j].id in s.store.sent ==> SentOk(s, s.jobs[step.j].id);
    }
    forall j | j in t.jobs && t.jobs[j].stage.Writing? && t.jobs[j].stage.copy.status == Running
      ensures t.jobs[j].id in t.store.sent
    {
      if !(IsJobStep(step) && step.j == j) {
        OtherJobs(s, step, LOCAL_ALREADY, j);
      }
    }
  }

  lemma SentKept(s: Ticking, step: Step, id: string)
    requires OperatorInv(s) && Enabled(s, step) && OperatorStep(step) && !ReadsBusy(s, step)
    requires id in Next(s, step, LOCAL_ALREADY).store.sent
    ensures SentOk(Next(s, step, LOCAL_ALREADY), id)
  {
    var t := Next(s, step, LOCAL_ALREADY);
    if IsJobStep(step) {
      assert CopyOk(s, s.jobs[step.j]);
    }
    forall j | j in t.jobs && Busy(t.jobs[j], id)
      ensures t.jobs[j].stage.Writing? && t.jobs[j].stage.copy.status == Running
    {
      BusyWithSent(s, step, id, j);
    }
    if id in s.store.sent && s.store.tasks[id].status != Running {
      assert SentOk(s, id);
      var j :| j in s.jobs && Busy(s.jobs[j], id);
      if t.store.tasks[id].status != Running {
        assert j in t.jobs && Busy(t.jobs[j], id);
      }
    } else if id !in s.store.sent {
      assert step.Send? && Busy(t.jobs[step.j], id);
    }
  }

  /** A sent task that a call will send again is still being written by its sender. */
  lemma SentReader(s: Ticking, step: Step, id: string)
    requires OperatorInv(s)
    ensures step.Read? && Enabled(s, step) && s.jobs[step.j].id == id && id in s.store.sent && id in s.store.tasks ==>
              s.store.tasks[id].status in LOCAL_ALREADY || ReadsBusy(s, step)
  {
    assert id in s.store.sent ==> SentOk(s, id);
  }

  lemma BusyWithSent(s: Ticking, step: Step, id: string, j: nat)
    requires OperatorInv(s) && Enabled(s, step) && OperatorStep(step) && !ReadsBusy(s, step)
    requires id in Next(s, step, LOCAL_ALREADY).store.sent
    requires j in Next(s, step, LOCAL_ALREADY).jobs && Busy(Next(s, step, LOCAL_ALREADY).jobs[j], id)
    ensures var job := Next(s, step, LOCAL_ALREADY).jobs[j]; job.stage.Writing? && job.stage.copy.status == Running
  {
    var t := Next(s, step, LOCAL_ALREADY);
    assert id in s.store.sent ==> SentOk(s, id);
    BusyBefore(s, step, j, id);
    if IsJobStep(step) && step.j == j {
      SentReader(s, step, id);
    } else {
      OtherJobs(s, step, LOCAL_ALREADY, j);
      assert id !in s.store.sent ==> step.Send? && Busy(s.jobs[step.j], id);
    }
  }

  /** Operators' calls keep every task to one call at it at a time and one send, except exactly a read
      of a task that another call is at. */
  lemma OperatorStepIff(s: Ticking, step: Step)
    requires OperatorInv(s) && Enabled(s, step) && OperatorStep(step)
    ensures OperatorInv(Next(s, step, LOCAL_ALREADY)) <==> !ReadsBusy(s, step)
  {
    var t := Next(s, step, LOCAL_ALREADY);
    if ReadsBusy(s, step) {
      var id := s.jobs[step.j].id;
      var k :| k in s.jobs && k != step.j && Busy(s.jobs[k], id);
      assert Busy(t.jobs[step.j], id) && Busy(t.jobs[k], id);
    } else {
      CopiesKept(s, step, LOCAL_ALREADY);
      OneBusyKept(s, step);
      SendersKept(s, step);
      forall id | id in t.store.sent ensures SentOk(t, id) {
        SentKept(s, step, id);
      }
    }
  }

  /** With operators alone and no such read, every task is sent at most once, whatever fails. */
  lemma {:induction false} OperatorsSendOnce(states: seq<Ticking>, steps: seq<Step>, n: nat)
    requires IsRun(LOCAL_ALREADY, states, steps) && n < |states|
    requires forall k | 0 <= k < n :: OperatorStep(steps[k]) && !ReadsBusy(states[k], steps[k])
    ensures OperatorInv(states[n])
    ensures Distinct(states[n].store.sent)
  {
    if n > 0 {
      OperatorsSendOnce(states, steps, n - 1);
      assert Moves(LOCAL_ALREADY, states[n - 1], steps[n - 1], states[n]);
      OperatorStepIff(states[n - 1], steps[n - 1]);
    }
  }

  /** The sender records its send, the other call records its failure over it, and the task is sent again. */
  lemma AfterFailure(states: seq<Ticking>, steps: seq<Step>, j: nat, k: nat)
    returns (more: seq<Ticking>, moreSteps: seq<Step>)
    requires Follows(LOCAL_ALREADY, states, steps)
    requires var s := states[|steps|];
      && CopiesOk(s) && j in s.jobs && k in s.jobs && j != k && s.jobs[j].id == s.jobs[k].id && s.jobs[j].operator
      && s.jobs[j].stage.Writing? && s.jobs[j].stage.copy.status == Running
      && s.jobs[k].stage.Writing? && s.jobs[k].stage.copy.status == Failed
    ensures Follows(LOCAL_ALREADY, more, moreSteps) && states <= more && steps <= moreSteps
    ensures forall n | |steps| <= n < |moreSteps| :: OperatorStep(moreSteps[n])
    ensures more[|moreSteps|].store.sent == states[|steps|].store.sent + [states[|steps|].jobs[j].id]
  {
    var id := states[|steps|].jobs[j].id;
    more, moreSteps := FailureOverwrites(states, steps, j, k);
    more, moreSteps := Extend(LOCAL_ALREADY, more, moreSteps, Operate(j, id));
    more, moreSteps := Extend(LOCAL_ALREADY, more, moreSteps, Read(j));
    more, moreSteps := Extend(LOCAL_ALREADY, more, moreSteps, Send(j, true));
  }

  lemma FailureOverwrites(states: seq<Ticking>, steps: seq<Step>, j: nat, k: nat)
    returns (more: seq<Ticking>, moreSteps: seq<Step>)
    requires Follows(LOCAL_ALREADY, states, steps)
    requires var s := states[|steps|];
      && CopiesOk(s) && j in s.jobs && k in s.jobs && j != k && s.jobs[j].id == s.jobs[k].id && s.jobs[j].operator
      && s.jobs[j].stage.Writing? && s.jobs[j].stage.copy.status == Running
      && s.jobs[k].stage.Writing? && s.jobs[k].stage.copy.status == Failed
    ensures Follows(LOCAL_ALREADY, more, moreSteps) && states <= more && steps <= moreSteps
    ensures forall n | |steps| <= n < |moreSteps| :: OperatorStep(moreSteps[n])
    ensures var s, t := states[|steps|], more[|moreSteps|];
      && t.store.sent == s.store.sent && j !in t.jobs
      && s.jobs[j].id in t.store.tasks && t.store.tasks[s.jobs[j].id].status == Failed
  {
    var s := states[|steps|];
    assert CopyOk(s, s.jobs[j]) && CopyOk(s, s.jobs[k]);
    more, moreSteps := Extend(LOCAL_ALREADY, states, steps, Write(j));
    more, moreSteps := Extend(LOCAL_ALREADY, more, moreSteps, Refresh(j, 0));
    more, moreSteps := Extend(LOCAL_ALREADY, more, moreSteps, Write(k));
  }

  lemma ReadAndSend(s: Ticking, j: nat, k: nat) returns (states: seq<Ticking>, steps: seq<Step>)
    requires CopiesOk(s) && Enabled(s, Read(j)) && s.jobs[j].id in s.store.tasks
    requires s.store.tasks[s.jobs[j].id].status !in LOCAL_ALREADY && k in s.jobs && k != j
    ensures Follows(LOCAL_ALREADY, states, steps) && states[0] == s && steps == [Read(j), Send(j, true)]
    ensures CopiesOk(states[2]) && states[2].store == s.store.(sent := s.store.sent + [s.jobs[j].id])
    ensures j in states[2].jobs && k in states[2].jobs && states[2].jobs[k] == s.jobs[k]
    ensures states[2].jobs[j].id == s.jobs[j].id && states[2].jobs[j].operator == s.jobs[j].operator
    ensures states[2].jobs[j].stage.Writing? && states[2].jobs[j].stage.copy.status == Running
  {
    states, steps := Extend(LOCAL_ALREADY, [s], [], Read(j));
    CopiesKept(s, Read(j), LOCAL_ALREADY);
    CopiesKept(states[1], Send(j, true), LOCAL_ALREADY);
    states, steps := Extend(LOCAL_ALREADY, states, steps, Send(j, true));
  }

  lemma TwiceIsNotDistinct(ids: seq<string>, i: nat, k: nat)
    requires i < k < |ids| && ids[i] == ids[k]
    ensures !Distinct(ids)
  {
  }

  /** From any such read the task can be sent twice: both calls send, or, when the other one's send has
      failed, its record hides the first send from one more call. */
  lemma ReadsBusySendsTwice(s: Ticking, j: nat) returns (states: seq<Ticking>, steps: seq<Step>)
    requires OperatorInv(s) && ReadsBusy(s, Read(j)) && s.jobs[j].operator
    ensures Follows(LOCAL_ALREADY, states, steps) && states[0] == s && |steps| > 0 && steps[0] == Read(j)
    ensures forall k | 0 <= k < |steps| :: OperatorStep(steps[k])
    ensures !Distinct(states[|steps|].store.sent)
  {
    var id, n := s.jobs[j].id, |s.store.sent|;
    var k :| k in s.jobs && k != j && Busy(s.jobs[k], id);
    states, steps := ReadAndSend(s, j, k);
    if s.jobs[k].stage.Holding? {
      states, steps := Extend(LOCAL_ALREADY, states, steps, Send(k, true));
      TwiceIsNotDistinct(states[3].store.sent, n, n + 1);
    } else if s.jobs[k].stage.copy.status == Running {
      assert id in s.store.sent;
      var i :| 0 <= i < n && s.store.sent[i] == id;
      TwiceIsNotDistinct(states[2].store.sent, i, n);
    } else {
      assert CopyOk(s, s.jobs[k]);
      states, steps := AfterFailure(states, steps, j, k);
      TwiceIsNotDistinct(states[|steps|].store.sent, n, n + 1);
    }
  }
}
