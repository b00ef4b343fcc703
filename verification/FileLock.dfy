/** PID file locks shared by any number of processes, one acquirer a process.

    Publishing, reading, checking a PID, removing and releasing are separate steps, as they are
    separate system calls. `Wait` is the file lock that waits its turn and may time out; `FailFast`
    is the singleton lock that gives up when the holder is alive or the content is no PID. */
module FileLock {
  import opened Wrappers

  datatype Variant = Wait | FailFast

  /** The lock file's content: a PID, zero for an empty file, or something that is no PID. */
  datatype Content = Pid(pid: int) | Garbage

  datatype Pc = Idle | Trying | Reading | Checking(pid: int) | Removing | Holding | GaveUp | Exited

  datatype State = State(file: Option<Content>, alive: set<int>, pcs: map<int, Pc>)

  // ---------------------------------------------------------------- one process's moves

  predicate ProcessAlive(alive: set<int>, pid: int) {
    pid > 0 && pid in alive
  }

  function LinkPc(file: Option<Content>): Pc {
    if file.None? then Holding else Reading
  }

  function RetryOrGiveUp(late: bool): Pc {
    if late then GaveUp else Trying
  }

  function ReadPc(v: Variant, file: Option<Content>, late: bool): Pc {
    match file
    case None => if v == FailFast then Trying else RetryOrGiveUp(late)
    case Some(Garbage) => if v == FailFast then GaveUp else RetryOrGiveUp(late)
    case Some(Pid(q)) => Checking(q)
  }

  function CheckPc(v: Variant, pid: int, alive: set<int>, late: bool): Pc {
    if !ProcessAlive(alive, pid) then Removing
    else if v == FailFast then GaveUp
    else RetryOrGiveUp(late)
  }

  // ---------------------------------------------------------------- steps

  /** `late` says whether the deadline has passed. Reclaim is read, check and remove in one step. */
  datatype Step =
    | Start(p: int)
    | Begin(p: int)
    | Link(p: int)
    | Read(p: int, late: bool)
    | Check(p: int, late: bool)
    | Remove(p: int)
    | Reclaim(p: int, late: bool)
    | Release(p: int)
    | Exit(p: int)

  predicate Running(s: State, p: int) {
    p in s.pcs && s.pcs[p] != Exited
  }

  predicate Enabled(s: State, step: Step) {
    match step
    case Start(p) => p > 0 && !Running(s, p)
    case Begin(p) => Running(s, p) && s.pcs[p] in {Idle, GaveUp}
    case Link(p) => Running(s, p) && s.pcs[p] == Trying
    case Read(p, _) => Running(s, p) && s.pcs[p] == Reading
    case Check(p, _) => Running(s, p) && s.pcs[p].Checking?
    case Remove(p) => Running(s, p) && s.pcs[p] == Removing
    case Reclaim(p, _) => Running(s, p) && s.pcs[p] == Reading
    case Release(p) => Running(s, p) && s.pcs[p] == Holding
    case Exit(p) => Running(s, p)
  }

  function Move(s: State, p: int, pc: Pc): State {
    s.(pcs := s.pcs[p := pc])
  }

  function Next(v: Variant, s: State, step: Step): State
    requires Enabled(s, step)
  {
    match step
    case Start(p) => Move(s, p, Idle).(alive := s.alive + {p})
    case Begin(p) => Move(s, p, Trying)
    case Link(p) =>
      if s.file.None? then Move(s, p, LinkPc(s.file)).(file := Some(Pid(p))) else Move(s, p, LinkPc(s.file))
    case Read(p, late) => Move(s, p, ReadPc(v, s.file, late))
    case Check(p, late) => Move(s, p, CheckPc(v, s.pcs[p].pid, s.alive, late))
    case Remove(p) => Move(s, p, Trying).(file := None)
    case Reclaim(p, late) =>
      var read := ReadPc(v, s.file, late);
      if !read.Checking? then Move(s, p, read)
      else
        var checked := CheckPc(v, read.pid, s.alive, late);
        if checked == Removing then Move(s, p, Trying).(file := None) else Move(s, p, checked)
    case Release(p) => Move(s, p, Idle).(file := None)
    case Exit(p) => Move(s, p, Exited).(alive := s.alive - {p})
  }

  ghost predicate IsRun(v: Variant, states: seq<State>, steps: seq<Step>) {
    && |states| == |steps| + 1
    && forall n | 0 <= n < |steps| :: Enabled(states[n], steps[n]) && states[n + 1] == Next(v, states[n], steps[n])
  }

  /** Processes have positive PIDs and are alive until they exit. */
  ghost predicate Sane(s: State) {
    forall p | p in s.pcs :: p > 0 && (s.pcs[p] != Exited ==> p in s.alive)
  }

  ghost predicate NobodyStarted(s: State) {
    Sane(s) && forall p | p in s.pcs :: s.pcs[p] == Idle
  }

  predicate Holds(s: State, p: int) {
    p in s.pcs && s.pcs[p] == Holding
  }

  /** The file holds the PID of a process that is gone. */
  predicate NamesTheDead(file: Option<Content>, alive: set<int>) {
    match file
    case Some(Pid(q)) => q <= 0 || q !in alive
    case _ => false
  }

  /** What a step does to the lock: it is gained exactly by a link that finds no file, and lost by its
      holder's release or exit. The file is written by such a link and taken away by a release, by a
      remove, and by a reclaim that finds the PID of a process that is gone. */
  lemma StepEffect(v: Variant, s: State, step: Step, q: int)
    requires Enabled(s, step)
    ensures var t := Next(v, s, step);
      && (Holds(t, q) <==>
            || (step == Link(q) && s.file.None?)
            || (Holds(s, q) && step != Release(q) && step != Exit(q)))
      && t.file == (if step.Link? && s.file.None? then Some(Pid(step.p))
                    else if step.Remove? || step.Release? || (step.Reclaim? && NamesTheDead(s.file, s.alive)) then None
                    else s.file)
  {
  }

  /** A process sets out to remove the file only from a check that found its PID's process gone, and
      the fail-fast lock gives up exactly on a live holder or on content that is no PID. */
  lemma CheckEffect(v: Variant, s: State, step: Step)
    requires Enabled(s, step) && (step.Check? || step.Read?)
    ensures var (before, after) := (s.pcs[step.p], Next(v, s, step).pcs[step.p]);
      && (after == Removing <==> step.Check? && NamesTheDead(Some(Pid(before.pid)), s.alive))
      && (v == FailFast ==>
            (after == GaveUp <==>
              || (step.Check? && !NamesTheDead(Some(Pid(before.pid)), s.alive))
              || (step.Read? && s.file == Some(Garbage))))
      && (v == Wait ==>
            (after == GaveUp <==>
              && step.late
              && if step.Check? then !NamesTheDead(Some(Pid(before.pid)), s.alive)
                 else s.file.None? || s.file == Some(Garbage)))
      && (step.Read? && s.file.Some? && s.file.value.Pid? ==> after == Checking(s.file.value.pid))
  {
  }

  /** A process that is idle or has given up takes a free lock in two steps, whoever released it. */
  lemma FreeLockIsTaken(v: Variant, s: State, p: int)
    requires Running(s, p) && s.pcs[p] in {Idle, GaveUp} && s.file.None?
    ensures Enabled(s, Begin(p))
    ensures var t := Next(v, s, Begin(p));
            Enabled(t, Link(p)) && Holds(Next(v, t, Link(p)), p) && Next(v, t, Link(p)).file == Some(Pid(p))
  {
  }

  // ---------------------------------------------------------------- no stale file, no exits

  /** The file names exactly the holder, and nobody is about to reclaim. */
  ghost predicate Clean(s: State) {
    && Sane(s)
    && (forall p | p in s.pcs :: s.pcs[p] != Exited && s.pcs[p] != Removing)
    && (forall p | p in s.pcs && s.pcs[p].Checking? :: Running(s, s.pcs[p].pid))
    && (forall p | Holds(s, p) :: s.file == Some(Pid(p)))
    && (s.file.Some? ==> s.file.value.Pid? && Holds(s, s.file.value.pid))
  }

  lemma StepKeepsClean(v: Variant, s: State, step: Step)
    requires Clean(s) && Enabled(s, step) && !step.Exit?
    ensures Clean(Next(v, s, step))
  {
    var t := Next(v, s, step);
    assert forall p | p in s.pcs && p != step.p :: t.pcs[p] == s.pcs[p];
    assert forall p | p != step.p && Holds(t, p) :: Holds(s, p);
    assert step.Release? ==> Holds(s, step.p);
  }

  lemma {:induction false} RunKeepsClean(v: Variant, states: seq<State>, steps: seq<Step>, n: nat)
    requires IsRun(v, states, steps) && n < |states|
    requires NobodyStarted(states[0]) && states[0].file.None?
    requires forall k | 0 <= k < |steps| :: !steps[k].Exit?
    ensures Clean(states[n])
  {
    if n > 0 {
      RunKeepsClean(v, states, steps, n - 1);
      StepKeepsClean(v, states[n - 1], steps[n - 1]);
    }
  }

  /** In every run, at any interleaving of the separate steps, that starts without a lock file and in
      which no process exits, there is at most one holder. */
  lemma MutualExclusionWithoutExits(v: Variant, states: seq<State>, steps: seq<Step>, n: nat, p: int, q: int)
    requires IsRun(v, states, steps) && n < |states|
    requires NobodyStarted(states[0]) && states[0].file.None?
    requires forall k | 0 <= k < |steps| :: !steps[k].Exit?
    requires Holds(states[n], p) && Holds(states[n], q)
    ensures p == q
  {
    RunKeepsClean(v, states, steps, n);
  }

  // ---------------------------------------------------------------- crashes and stale files

  /** A running holder is named by the file. A holder that exited has left Holding. */
  ghost predicate HolderNamed(s: State) {
    Sane(s) && forall p | Holds(s, p) :: s.file == Some(Pid(p))
  }

  predicate NamesHolder(s: State) {
    s.file.Some? && s.file.value.Pid? && Holds(s, s.file.value.pid)
  }

  /** Crashes included, every step but a separate remove keeps the holder named; a remove keeps it
      exactly when the file does not name a holder at that instant. */
  lemma StepKeepsHolderNamedIff(v: Variant, s: State, step: Step)
    requires HolderNamed(s) && Enabled(s, step)
    ensures HolderNamed(Next(v, s, step)) <==> !(step.Remove? && NamesHolder(s))
  {
    var t := Next(v, s, step);
    assert forall p | p in s.pcs && p != step.p :: t.pcs[p] == s.pcs[p];
    assert forall p | p != step.p && Holds(t, p) :: Holds(s, p);
    assert step.Release? ==> Holds(s, step.p);
    if step.Remove? && NamesHolder(s) {
      assert Holds(t, s.file.value.pid);
    }
  }

  /** The exception is real: after such a remove the remover's next link gives a second holder. */
  lemma BadRemoveGivesTwoHolders(v: Variant, s: State, p: int)
    requires HolderNamed(s) && Enabled(s, Remove(p)) && NamesHolder(s)
    ensures var h := s.file.value.pid;
      var t := Next(v, s, Remove(p));
      && Enabled(t, Link(p)) && h != p
      && Holds(Next(v, t, Link(p)), h) && Holds(Next(v, t, Link(p)), p)
  {
  }

  lemma {:induction false} RunKeepsHolderNamed(v: Variant, states: seq<State>, steps: seq<Step>, n: nat)
    requires IsRun(v, states, steps) && n < |states| && NobodyStarted(states[0])
    requires forall k | 0 <= k < |steps| && steps[k].Remove? :: !NamesHolder(states[k])
    ensures HolderNamed(states[n])
  {
    if n > 0 {
      RunKeepsHolderNamed(v, states, steps, n - 1);
      StepKeepsHolderNamedIff(v, states[n - 1], steps[n - 1]);
    }
  }

  /** Under crashes, from any file, stale or not, there is at most one live holder in every run in
      which each remove finds a file that names no holder. */
  lemma MutualExclusionUnderCrashes(v: Variant, states: seq<State>, steps: seq<Step>, n: nat, p: int, q: int)
    requires IsRun(v, states, steps) && n < |states| && NobodyStarted(states[0])
    requires forall k | 0 <= k < |steps| && steps[k].Remove? :: !NamesHolder(states[k])
    requires Holds(states[n], p) && Holds(states[n], q)
    ensures p == q
  {
    RunKeepsHolderNamed(v, states, steps, n);
  }

  /** In particular when read, check and remove are one step. PIDs may be used again after an exit. */
  lemma AtomicReclaimIsSafe(v: Variant, states: seq<State>, steps: seq<Step>, n: nat, p: int, q: int)
    requires IsRun(v, states, steps) && n < |states| && NobodyStarted(states[0])
    requires forall k | 0 <= k < |steps| :: !steps[k].Remove?
    requires Holds(states[n], p) && Holds(states[n], q)
    ensures p == q
  {
    MutualExclusionUnderCrashes(v, states, steps, n, p, q);
  }

  ghost predicate NoExits(steps: seq<Step>) {
    forall k | 0 <= k < |steps| :: !steps[k].Exit?
  }

  /** Runs one process's steps, one after the other, from a state. */
  ghost predicate Reaches(v: Variant, s: State, steps: seq<Step>, t: State)
    decreases |steps|
  {
    if steps == [] then s == t else Enabled(s, steps[0]) && Reaches(v, Next(v, s, steps[0]), steps[1..], t)
  }

  lemma {:induction false} Extend(v: Variant, states: seq<State>, steps: seq<Step>, more: seq<Step>, t: State)
    returns (allStates: seq<State>, allSteps: seq<Step>)
    requires IsRun(v, states, steps) && Reaches(v, states[|steps|], more, t)
    requires NoExits(steps) && NoExits(more)
    ensures IsRun(v, allStates, allSteps) && NoExits(allSteps)
    ensures allStates[0] == states[0] && allStates[|allSteps|] == t
    decreases |more|
  {
    if more == [] {
      allStates, allSteps := states, steps;
    } else {
      var next := Next(v, states[|steps|], more[0]);
      allStates, allSteps := Extend(v, states + [next], steps + [more[0]], more[1..], t);
    }
  }

  /** A process that finds a stale file and judges it dead, its remove still to come. */
  lemma JudgesStale(v: Variant, s: State, p: int, pid: int)
    requires Running(s, p) && s.pcs[p] == Idle && s.file == Some(Pid(pid)) && pid !in s.alive
    ensures Reaches(v, s, [Begin(p), Link(p), Read(p, false), Check(p, false)], Move(s, p, Removing))
  {
    var a := Move(s, p, Trying);
    var b := Move(s, p, Reading);
    var c := Move(s, p, Checking(pid));
    assert Next(v, s, Begin(p)) == a && Next(v, a, Link(p)) == b && Next(v, b, Read(p, false)) == c;
    assert Next(v, c, Check(p, false)) == Move(s, p, Removing);
    assert Reaches(v, c, [Check(p, false)], Move(s, p, Removing));
    assert [Read(p, false), Check(p, false)][1..] == [Check(p, false)];
    assert Reaches(v, b, [Read(p, false), Check(p, false)], Move(s, p, Removing));
    assert [Link(p), Read(p, false), Check(p, false)][1..] == [Read(p, false), Check(p, false)];
    assert Reaches(v, a, [Link(p), Read(p, false), Check(p, false)], Move(s, p, Removing));
    assert [Begin(p), Link(p), Read(p, false), Check(p, false)][1..] == [Link(p), Read(p, false), Check(p, false)];
  }

  lemma RemovesAndLinks(v: Variant, s: State, p: int)
    requires Running(s, p) && s.pcs[p] == Removing
    ensures Reaches(v, s, [Remove(p), Link(p)], Move(s, p, Holding).(file := Some(Pid(p))))
  {
    var a := Move(s, p, Trying).(file := None);
    assert Next(v, s, Remove(p)) == a;
    assert Next(v, a, Link(p)) == Move(s, p, Holding).(file := Some(Pid(p)));
    assert [Remove(p), Link(p)][1..] == [Link(p)];
    assert Reaches(v, a, [Link(p)], Move(s, p, Holding).(file := Some(Pid(p))));
  }

  lemma BothJudgeStale(v: Variant, s0: State) returns (states: seq<State>, steps: seq<Step>)
    requires s0 == State(Some(Pid(99)), {1, 2}, map[1 := Idle, 2 := Idle])
    ensures IsRun(v, states, steps) && NoExits(steps) && states[0] == s0
    ensures states[|steps|] == Move(Move(s0, 1, Removing), 2, Removing)
  {
    var s1 := Move(s0, 1, Removing);
    JudgesStale(v, s0, 1, 99);
    states, steps := Extend(v, [s0], [], [Begin(1), Link(1), Read(1, false), Check(1, false)], s1);
    JudgesStale(v, s1, 2, 99);
    states, steps := Extend(v, states, steps, [Begin(2), Link(2), Read(2, false), Check(2, false)],
      Move(s1, 2, Removing));
  }

  /** The race is not benign: two processes that both judged the same stale file can both end up
      holding the lock, in either variant, with no exit on the way. */
  lemma StaleFileTwoHolders(v: Variant) returns (states: seq<State>, steps: seq<Step>)
    ensures IsRun(v, states, steps) && NobodyStarted(states[0]) && states[0].file == Some(Pid(99))
    ensures NoExits(steps)
    ensures Holds(states[|steps|], 1) && Holds(states[|steps|], 2)
  {
    var s0 := State(Some(Pid(99)), {1, 2}, map[1 := Idle, 2 := Idle]);
    var s2 := Move(Move(s0, 1, Removing), 2, Removing);
    var s3 := Move(s2, 1, Holding).(file := Some(Pid(1)));
    var s4 := Move(s3, 2, Holding).(file := Some(Pid(2)));
    states, steps := BothJudgeStale(v, s0);
    RemovesAndLinks(v, s2, 1);
    RemovesAndLinks(v, s3, 2);
    states, steps := Extend(v, states, steps, [Remove(1), Link(1)], s3);
    states, steps := Extend(v, states, steps, [Remove(2), Link(2)], s4);
  }

  // ---------------------------------------------------------------- the acquire loops

  /** What one pass of a loop meets: the file at its link and at its read, the processes alive at
      its check, and whether the deadline has passed at its end. */
  datatype Pass = Pass(atLink: Option<Content>, atRead: Option<Content>, alive: set<int>, late: bool)

  datatype Acquisition = Acquired | Refused | StillTrying

  /** Where a process stands after one pass, by the moves above. */
  function PassPc(v: Variant, pass: Pass): Pc {
    var linked := LinkPc(pass.atLink);
    if linked == Holding then Holding
    else
      var read := ReadPc(v, pass.atRead, pass.late);
      if !read.Checking? then read
      else
        var checked := CheckPc(v, read.pid, pass.alive, pass.late);
        if checked == Removing then Trying else checked
  }

  predicate Reclaims(pass: Pass) {
    pass.atLink.Some? && pass.atRead.Some? && pass.atRead.value.Pid? && !ProcessAlive(pass.alive, pass.atRead.value.pid)
  }

  /** A pass that ends in a sleep. */
  predicate Sleeps(pass: Pass) {
    pass.atLink.Some? && !Reclaims(pass) && !pass.late
  }

  function Min(a: int, b: int): int { if a < b then a else b }

  /** The k-th sleep in milliseconds: 2, 4, 8, 16, 32, then 50. */
  function SleepMs(k: nat): (ms: int)
    ensures 2 <= ms <= 50
  {
    if k == 0 then 2 else Min(2 * SleepMs(k - 1), 50)
  }

  lemma {:induction false} SleepSchedule(k: nat)
    ensures SleepMs(k) == if k < 5 then [2, 4, 8, 16, 32][k] else 50
  {
    if k > 0 {
      SleepSchedule(k - 1);
    }
  }

  lemma NextSleep(k: nat)
    ensures SleepMs(k + 1) == if SleepMs(k) < 50 then Min(2 * SleepMs(k), 50) else 50
  {
  }

  function SleepingPasses(passes: seq<Pass>, n: nat): set<int>
    requires n <= |passes|
  {
    set k | 0 <= k < n && Sleeps(passes[k])
  }

  lemma OnePassMore(passes: seq<Pass>, n: nat)
    requires n < |passes|
    ensures |SleepingPasses(passes, n + 1)| == |SleepingPasses(passes, n)| + if Sleeps(passes[n]) then 1 else 0
  {
    assert SleepingPasses(passes, n + 1) == SleepingPasses(passes, n) + if Sleeps(passes[n]) then {n} else {};
  }

  lemma PassOutcome(pass: Pass)
    ensures Reclaims(pass) <==> pass.atLink.Some? && NamesTheDead(pass.atRead, pass.alive)
    ensures PassPc(Wait, pass) ==
            if pass.atLink.None? then Holding else if NamesTheDead(pass.atRead, pass.alive) then Trying
            else if pass.late then GaveUp else Trying
    ensures Sleeps(pass) <==> PassPc(Wait, pass) == Trying && !Reclaims(pass)
  {
  }

  lemma RoundsAreTrying(passes: seq<Pass>, n: nat)
    requires n <= |passes| && forall k | 0 <= k < n :: Reclaims(passes[k]) || Sleeps(passes[k])
    ensures forall k | 0 <= k < n :: PassPc(Wait, passes[k]) == Trying
  {
    forall k | 0 <= k < n ensures PassPc(Wait, passes[k]) == Trying {
      PassOutcome(passes[k]);
    }
  }

  /** AcquireWait over the passes it gets: it stops at the first pass that links or that ends past
      the deadline, never sleeps after a reclaim, and sleeps on the capped doubling schedule. */
  method AcquireWait(passes: seq<Pass>) returns (result: Acquisition, used: nat, sleeps: seq<int>)
    ensures used <= |passes|
    ensures forall k | 0 <= k < used - 1 :: PassPc(Wait, passes[k]) == Trying
    ensures result == Acquired <==> used > 0 && PassPc(Wait, passes[used - 1]) == Holding
    ensures result == Refused <==> used > 0 && PassPc(Wait, passes[used - 1]) == GaveUp
    ensures result == StillTrying ==> used == |passes|
    ensures |sleeps| == |SleepingPasses(passes, used)|
    ensures forall k | 0 <= k < |sleeps| :: sleeps[k] == SleepMs(k)
  {
    var backoff := 2;
    used, sleeps := 0, [];
    while used < |passes|
      invariant used <= |passes|
      invariant forall k | 0 <= k < used :: Reclaims(passes[k]) || Sleeps(passes[k])
      invariant |sleeps| == |SleepingPasses(passes, used)| && backoff == SleepMs(|sleeps|)
      invariant forall k | 0 <= k < |sleeps| :: sleeps[k] == SleepMs(k)
    {
      var pass := passes[used];
      OnePassMore(passes, used);
      PassOutcome(pass);
      RoundsAreTrying(passes, used);
      used := used + 1;
      if pass.atLink.None? {
        return Acquired, used, sleeps;
      }
      if pass.atRead.Some? && pass.atRead.value.Pid? && !ProcessAlive(pass.alive, pass.atRead.value.pid) {
        continue;
      }
      if pass.late {
        return Refused, used, sleeps;
      }
      NextSleep(|sleeps|);
      sleeps := sleeps + [backoff];
      if backoff < 50 {
        backoff := backoff * 2;
        if backoff > 50 {
          backoff := 50;
        }
      }
    }
    if used > 0 {
      RoundsAreTrying(passes, used);
    }
    return StillTrying, used, sleeps;
  }

  /** The file was there at the link and gone at the read. */
  predicate Vanished(pass: Pass) {
    pass.atLink.Some? && pass.atRead.None?
  }

  /** The fail-fast loop holds, refuses at once, or goes round again exactly after a reclaim or when
      the file vanished. */
  lemma FailFastOutcome(pass: Pass)
    ensures Reclaims(pass) <==> pass.atLink.Some? && NamesTheDead(pass.atRead, pass.alive)
    ensures PassPc(FailFast, pass) ==
            if pass.atLink.None? then Holding
            else if NamesTheDead(pass.atRead, pass.alive) || pass.atRead.None? then Trying else GaveUp
  {
  }

  /** AcquireLock over the passes it gets: it goes round again only after a reclaim or when the file
      vanished between its link and its read. */
  method AcquireLock(passes: seq<Pass>) returns (result: Acquisition, used: nat)
    ensures used <= |passes|
    ensures forall k | 0 <= k < used - 1 ::
              PassPc(FailFast, passes[k]) == Trying && (Reclaims(passes[k]) || Vanished(passes[k]))
    ensures result == Acquired <==> used > 0 && PassPc(FailFast, passes[used - 1]) == Holding
    ensures result == Refused <==> used > 0 && PassPc(FailFast, passes[used - 1]) == GaveUp
    ensures result == StillTrying ==> used == |passes|
  {
    used := 0;
    while used < |passes|
      invariant used <= |passes|
      invariant forall k | 0 <= k < used ::
                  PassPc(FailFast, passes[k]) == Trying && (Reclaims(passes[k]) || Vanished(passes[k]))
    {
      var pass := passes[used];
      FailFastOutcome(pass);
      used := used + 1;
      if pass.atLink.None? {
        return Acquired, used;
      }
      match pass.atRead
      case None =>
      case Some(Garbage) => return Refused, used;
      case Some(Pid(q)) =>
        if ProcessAlive(pass.alive, q) {
          return Refused, used;
        }
    }
    return StillTrying, used;
  }
}
