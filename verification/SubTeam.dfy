/** The sub-team manager: spawned agents, their goroutines, termination and the session records.

    A step is one section under the manager's mutex, or one action of an agent's goroutine outside
    it. A heartbeat timeout, a cancelled context and a recovered panic all make the goroutine leave
    its loop; timers and channels are not modelled. Saving the session file succeeds. */
module SubTeam {
  import opened Wrappers
  import opened SessionFile

  datatype Status = Idle | Working | Terminating | Terminated

  /** Where an agent's goroutine is: in its loop, on its way out, past markTerminated, past closing done. */
  datatype Phase = Looping | Leaving | Marked | Done

  datatype Spawn = Spawn(name: string, status: Status, cancelled: bool, phase: Phase)

  /** Every spawn ever made, the manager's map from names to spawns, and the session records. */
  datatype State = State(spawns: seq<Spawn>, bots: map<string, nat>, records: seq<Record>)

  const EMPTY := State([], map[], [])

  // ---------------------------------------------------------------- steps

  datatype Step =
    | SpawnNew(name: string)
    | Cancel(i: nat)
    | Leave(i: nat)
    | Mark(i: nat)
    | CloseDone(i: nat)
    | BeginTerminate(name: string)
    | BeginTearDown

  ghost predicate WellFormed(s: State) {
    forall name | name in s.bots :: s.bots[name] < |s.spawns| && s.spawns[s.bots[name]].name == name
  }

  predicate Active(s: State, name: string)
    requires name in s.bots ==> s.bots[name] < |s.spawns|
  {
    name in s.bots && !s.spawns[s.bots[name]].status.Terminated?
  }

  ghost predicate Enabled(s: State, step: Step)
    requires WellFormed(s)
  {
    match step
    case SpawnNew(name) => !Active(s, name)
    case Cancel(i) => i < |s.spawns|
    case Leave(i) => i < |s.spawns| && s.spawns[i].phase == Looping
    case Mark(i) => i < |s.spawns| && s.spawns[i].phase == Leaving
    case CloseDone(i) => i < |s.spawns| && s.spawns[i].phase == Marked
    case BeginTerminate(name) => Active(s, name)
    case BeginTearDown => true
  }

  function SpawnNext(s: State, name: string): State {
    var i := |s.spawns|;
    State(s.spawns + [Spawn(name, Idle, false, Looping)], s.bots[name := i], s.records + [Record(name, i)])
  }

  function SetSpawn(s: State, i: nat, a: Spawn): State
    requires i < |s.spawns|
  {
    s.(spawns := s.spawns[i := a])
  }

  /** markTerminated looks the agent up by name, not by goroutine. */
  function MarkByName(s: State, name: string): State
    requires name in s.bots ==> s.bots[name] < |s.spawns|
  {
    var t := if name in s.bots then SetSpawn(s, s.bots[name], s.spawns[s.bots[name]].(status := Terminated)) else s;
    t.(records := Without(s.records, name))
  }

  function TearDownSpawns(s: State): (spawns: seq<Spawn>)
    ensures |spawns| == |s.spawns|
  {
    seq(|s.spawns|, i requires 0 <= i < |s.spawns| =>
      var a := s.spawns[i];
      if a.name in s.bots && s.bots[a.name] == i && !a.status.Terminated? then a.(status := Terminating) else a)
  }

  ghost function Next(s: State, step: Step): State
    requires WellFormed(s) && Enabled(s, step)
  {
    match step
    case SpawnNew(name) => SpawnNext(s, name)
    case Cancel(i) => SetSpawn(s, i, s.spawns[i].(cancelled := true))
    case Leave(i) => SetSpawn(s, i, s.spawns[i].(phase := Leaving))
    case Mark(i) =>
      var t := MarkByName(s, s.spawns[i].name);
      SetSpawn(t, i, t.spawns[i].(phase := Marked))
    case CloseDone(i) => SetSpawn(s, i, s.spawns[i].(phase := Done))
    case BeginTerminate(name) => SetSpawn(s, s.bots[name], s.spawns[s.bots[name]].(status := Terminating))
    case BeginTearDown => s.(spawns := TearDownSpawns(s))
  }

  // ---------------------------------------------------------------- the manager

  class BotState {
    const id: nat
    const name: string
    var status: Status
    var cancelled: bool
    var phase: Phase

    constructor (id: nat, name: string)
      ensures this.id == id && View() == Spawn(name, Idle, false, Looping)
    {
      this.id, this.name := id, name;
      status, cancelled, phase := Idle, false, Looping;
    }

    function View(): Spawn
      reads this
    {
      Spawn(name, status, cancelled, phase)
    }
  }

  class Manager {
    var bots: map<string, BotState>
    const sf: File
    /** Stands for the spawn time: it tells two spawns of one name apart. */
    var spawnCount: nat
    /** Every spawn in the order made; a goroutine keeps its own state alive after the map drops it. */
    ghost var all: seq<BotState>

    ghost predicate Valid()
      reads this
    {
      && spawnCount == |all|
      && (forall i, j | 0 <= i < j < |all| :: all[i] != all[j])
      && (forall i | 0 <= i < |all| :: all[i].id == i)
      && (forall name | name in bots :: bots[name] in all && bots[name].name == name)
    }

    ghost function Spawns(): (spawns: seq<Spawn>)
      reads this, all
      ensures |spawns| == |all| && forall i | 0 <= i < |all| :: spawns[i] == all[i].View()
    {
      seq(|all|, i requires 0 <= i < |all| reads this, all => all[i].View())
    }

    ghost function Bots(): map<string, nat>
      reads this
    {
      map name | name in bots :: bots[name].id
    }

    ghost function View(): State
      reads this, all, sf
    {
      State(Spawns(), Bots(), sf.records)
    }

    constructor ()
      ensures Valid() && fresh(sf) && all == [] && View() == EMPTY
    {
      bots := map[];
      sf := new File();
      spawnCount, all := 0, [];
    }

    lemma ViewWellFormed()
      requires Valid()
      ensures WellFormed(View())
      ensures forall name | name in bots :: View().spawns[bots[name].id] == bots[name].View()
    {
    }

    method Register(name: string) returns (s: BotState)
      requires Valid()
      modifies this, sf
      ensures Valid() && fresh(s) && all == old(all) + [s]
      ensures View() == SpawnNext(old(View()), name)
      ensures s.View() == Spawn(name, Idle, false, Looping) && bots == old(bots)[name := s]
      ensures sf.records == old(sf.records) + [Record(name, s.id)]
    {
      s := new BotState(spawnCount, name);
      spawnCount := spawnCount + 1;
      bots := bots[name := s];
      all := all + [s];
      sf.Append(Record(name, s.id));
      assert Spawns() == old(Spawns()) + [s.View()];
      assert Bots() == old(Bots())[name := s.id];
    }

    /** None when the name is already active. */
    method SpawnAgent(name: string) returns (state: Option<BotState>)
      requires Valid()
      modifies this, sf
      ensures Valid() && WellFormed(old(View()))
      ensures state.None? <==> name in old(bots) && old(bots[name].status) != Terminated
      ensures state.None? ==> View() == old(View())
      ensures state.Some? ==>
                && state.value.View() == Spawn(name, Idle, false, Looping)
                && bots == old(bots)[name := state.value]
                && sf.records == old(sf.records) + [Record(name, state.value.id)]
      ensures state.Some? ==>
                fresh(state.value) && all == old(all) + [state.value] && View() == SpawnNext(old(View()), name)
    {
      ViewWellFormed();
      if name in bots && bots[name].status != Terminated {
        return None;
      }
      var s := Register(name);
      return Some(s);
    }

    /** Called from an agent's goroutine on its way out, with that agent's name. */
    method MarkTerminated(name: string)
      requires Valid()
      modifies sf, all
      ensures Valid() && WellFormed(old(View())) && View() == MarkByName(old(View()), name)
      ensures name in bots ==> bots[name].status == Terminated
    {
      ViewWellFormed();
      if name in bots {
        var s := bots[name];
        s.status := Terminated;
        assert Spawns() == old(Spawns())[s.id := s.View()];
      }
      sf.Remove(name);
    }

    /** A goroutine's own way out: first the mark under the mutex, then, as a separate step, done. */
    method FinishMark(s: BotState)
      requires Valid() && s in all && s.phase == Leaving
      modifies sf, all
      ensures Valid() && WellFormed(old(View())) && Enabled(old(View()), Mark(s.id))
      ensures View() == Next(old(View()), Mark(s.id))
    {
      ViewWellFormed();
      MarkTerminated(s.name);
      ghost var marked := View();
      s.phase := Marked;
      assert Spawns() == marked.spawns[s.id := s.View()];
    }

    method FinishDone(s: BotState)
      requires Valid() && s in all && s.phase == Marked
      modifies s
      ensures Valid() && WellFormed(old(View())) && Enabled(old(View()), CloseDone(s.id))
      ensures View() == Next(old(View()), CloseDone(s.id))
    {
      ViewWellFormed();
      s.phase := Done;
      assert Spawns() == old(Spawns())[s.id := s.View()];
    }

    /** The section of Terminate under the mutex; the caller goes on to cancel and wait on the result. */
    method BeginTermination(name: string) returns (state: Option<BotState>)
      requires Valid()
      modifies all
      ensures Valid() && WellFormed(old(View()))
      ensures state.Some? <==> name in old(bots) && old(bots[name].status) != Terminated
      ensures state.Some? ==> state.value.status == Terminating && state.value.phase == old(bots[name].phase)
      ensures state.None? ==> View() == old(View())
      ensures state.Some? ==> state.value == bots[name] && View() == Next(old(View()), BeginTerminate(name))
    {
      ViewWellFormed();
      if name !in bots || bots[name].status == Terminated {
        return None;
      }
      var s := bots[name];
      s.status := Terminating;
      assert Spawns() == old(Spawns())[s.id := s.View()];
      return Some(s);
    }

    /** The section of TearDownAll under the mutex. */
    method BeginTearingDown() returns (states: set<BotState>)
      requires Valid()
      modifies all
      ensures Valid() && WellFormed(old(View())) && View() == Next(old(View()), BeginTearDown)
      ensures forall s :: s in states <==> s in bots.Values && !old(s.status).Terminated?
      ensures forall s | s in states :: s.status == Terminating
      ensures forall n | n in bots && bots[n] !in states :: bots[n].status == Terminated
    {
      ViewWellFormed();
      states := SetTerminating();
      TornDown(states, old(View()), View());
    }

    /** The loop over the map. */
    method SetTerminating() returns (states: set<BotState>)
      requires Valid()
      modifies all
      ensures Valid() && states <= bots.Values
      ensures forall n | n in bots :: bots[n] in states <==> !old(bots[n].status).Terminated?
      ensures forall i | 0 <= i < |all| && all[i] in states ::
                all[i].View() == old(all[i].View()).(status := Terminating)
      ensures forall i | 0 <= i < |all| && all[i] !in states :: all[i].View() == old(all[i].View())
    {
      states := {};
      var todo := bots.Keys;
      while todo != {}
        invariant todo <= bots.Keys && states <= bots.Values
        invariant forall n | n in bots :: bots[n] in states <==> n !in todo && !old(bots[n].status).Terminated?
        invariant forall i | 0 <= i < |all| && all[i] in states ::
          all[i].View() == old(all[i].View()).(status := Terminating)
        invariant forall i | 0 <= i < |all| && all[i] !in states :: all[i].View() == old(all[i].View())
        decreases todo
      {
        var n :| n in todo;
        todo := todo - {n};
        var s := bots[n];
        if s.status != Terminated {
          s.status := Terminating;
          states := states + {s};
        }
      }
    }

    lemma TornDown(states: set<BotState>, before: State, after: State)
      requires Valid()
      requires after == View()
      requires before.bots == Bots() && before.records == sf.records && |before.spawns| == |all|
      requires forall i | 0 <= i < |all| :: before.spawns[i].name == all[i].name
      requires states <= bots.Values
      requires forall n | n in bots :: bots[n] in states <==> !before.spawns[bots[n].id].status.Terminated?
      requires forall i | 0 <= i < |all| && all[i] in states ::
                 all[i].View() == before.spawns[i].(status := Terminating)
      requires forall i | 0 <= i < |all| && all[i] !in states :: all[i].View() == before.spawns[i]
      ensures after == before.(spawns := TearDownSpawns(before))
    {
      forall i | 0 <= i < |all| ensures after.spawns[i] == TearDownSpawns(before)[i] {
        var b := all[i];
        assert b in bots.Values ==> b.name in bots && bots[b.name] == b;
        if b.name in bots && bots[b.name].id == i {
          assert bots[b.name] == all[bots[b.name].id];
        }
      }
    }
  }

  // ---------------------------------------------------------------- invariants over every run

  predicate Live(a: Spawn) {
    a.phase == Looping || a.phase == Leaving
  }

  /** A live goroutine is the one the map has for its name, and its agent is not terminated; a
      goroutine past its mark leaves a terminated agent behind. */
  ghost predicate Owned(s: State) {
    forall i | 0 <= i < |s.spawns| ::
      if Live(s.spawns[i])
      then s.spawns[i].name in s.bots && s.bots[s.spawns[i].name] == i && !s.spawns[i].status.Terminated?
      else s.spawns[i].status.Terminated?
  }

  /** The session records are exactly the agents that are not terminated, each once. */
  ghost predicate Recorded(s: State) {
    && (forall i | 0 <= i < |s.spawns| :: !s.spawns[i].status.Terminated? <==> Record(s.spawns[i].name, i) in s.records)
    && (forall r | r in s.records :: r.spawn < |s.spawns| && s.spawns[r.spawn].name == r.name)
    && (forall r :: multiset(s.records)[r] <= 1)
  }

  ghost predicate Inv(s: State) {
    WellFormed(s) && Owned(s) && Recorded(s)
  }

  /** The goroutine that marks is the one whose agent the map holds, so the mark by name hits it. */
  lemma MarkHitsOwnSpawn(s: State, i: nat)
    requires Inv(s) && Enabled(s, Mark(i))
    ensures Next(s, Mark(i)).spawns == s.spawns[i := s.spawns[i].(status := Terminated, phase := Marked)]
    ensures Next(s, Mark(i)).bots == s.bots
  {
  }

  /** A record of a name with a live agent is that agent's. */
  lemma RecordsOfLiveName(s: State, i: nat)
    requires Inv(s) && i < |s.spawns| && Live(s.spawns[i])
    ensures forall r | r in s.records && r.name == s.spawns[i].name :: r.spawn == i
  {
    assert forall r | r in s.records :: r == Record(s.spawns[r.spawn].name, r.spawn);
  }

  lemma SpawnKeepsInv(s: State, name: string)
    requires Inv(s) && Enabled(s, SpawnNew(name))
    ensures Inv(Next(s, SpawnNew(name)))
  {
    var t := Next(s, SpawnNew(name));
    assert forall i | 0 <= i < |s.spawns| :: t.spawns[i] == s.spawns[i];
    assert Record(name, |s.spawns|) !in s.records;
  }

  lemma MarkKeepsInv(s: State, i: nat)
    requires Inv(s) && Enabled(s, Mark(i))
    ensures Inv(Next(s, Mark(i)))
  {
    var t := Next(s, Mark(i));
    var name := s.spawns[i].name;
    MarkHitsOwnSpawn(s, i);
    WithoutKeepsExactly(s.records, name);
    RecordsOfLiveName(s, i);
    forall j | 0 <= j < |t.spawns|
      ensures !t.spawns[j].status.Terminated? <==> Record(t.spawns[j].name, j) in t.records
    {
      assert Record(s.spawns[j].name, j) in s.records && s.spawns[j].name == name ==> j == i;
    }
  }

  lemma OtherStepKeepsInv(s: State, step: Step)
    requires Inv(s) && Enabled(s, step) && !step.SpawnNew? && !step.Mark?
    ensures Inv(Next(s, step))
  {
    var t := Next(s, step);
    assert t.records == s.records && t.bots == s.bots && |t.spawns| == |s.spawns|;
    assert forall i | 0 <= i < |s.spawns| ::
        && t.spawns[i].name == s.spawns[i].name && Live(t.spawns[i]) == Live(s.spawns[i])
        && t.spawns[i].status.Terminated? == s.spawns[i].status.Terminated?;
  }

  lemma StepKeepsInv(s: State, step: Step)
    requires Inv(s) && Enabled(s, step)
    ensures Inv(Next(s, step))
  {
    match step
    case SpawnNew(name) => SpawnKeepsInv(s, name);
    case Mark(i) => MarkKeepsInv(s, i);
    case _ => OtherStepKeepsInv(s, step);
  }

  /** Terminated is final for a spawn, names never change, and phases only move forward. */
  lemma StepKeepsTerminated(s: State, step: Step, i: nat)
    requires Inv(s) && Enabled(s, step) && i < |s.spawns|
    ensures var t := Next(s, step);
      && i < |t.spawns| && t.spawns[i].name == s.spawns[i].name
      && (s.spawns[i].status.Terminated? ==> t.spawns[i].status.Terminated?)
      && (s.spawns[i].phase == Done ==> t.spawns[i].phase == Done)
  {
    if step.Mark? {
      MarkHitsOwnSpawn(s, step.i);
    }
  }

  /** No step of one agent's goroutine terminates another spawn, however the names are reused. */
  lemma OnlyOwnGoroutineTerminates(s: State, step: Step, i: nat)
    requires Inv(s) && Enabled(s, step) && i < |s.spawns|
    requires !s.spawns[i].status.Terminated? && Next(s, step).spawns[i].status.Terminated?
    ensures step == Mark(i)
  {
    if step.Mark? {
      MarkHitsOwnSpawn(s, step.i);
    }
  }

  ghost predicate IsRun(states: seq<State>, steps: seq<Step>) {
    && |states| == |steps| + 1
    && states[0] == EMPTY
    && forall n | 0 <= n < |steps| ::
         WellFormed(states[n]) && Enabled(states[n], steps[n]) && states[n + 1] == Next(states[n], steps[n])
  }

  /** A name may be used again before its last agent's done is closed, and that agent need not have been
      cancelled: its goroutine leaves by itself when its heartbeats stop. */
  lemma NameReusedBeforeDone(name: string) returns (states: seq<State>, steps: seq<Step>)
    ensures IsRun(states, steps)
    ensures states[|steps|].spawns == [Spawn(name, Terminated, false, Marked), Spawn(name, Idle, false, Looping)]
    ensures states[|steps|].bots == map[name := 1] && states[|steps|].records == [Record(name, 1)]
    ensures Enabled(states[|steps|], CloseDone(0))
  {
    states, steps := LeftByItself(name);
    var again := State([Spawn(name, Terminated, false, Marked), Spawn(name, Idle, false, Looping)],
                       map[name := 1], [Record(name, 1)]);
    states, steps := Grow(states, steps, SpawnNew(name), again);
  }

  lemma LeftByItself(name: string) returns (states: seq<State>, steps: seq<Step>)
    ensures IsRun(states, steps)
    ensures states[|steps|] == State([Spawn(name, Terminated, false, Marked)], map[name := 0], [])
  {
    var first := State([Spawn(name, Idle, false, Looping)], map[name := 0], [Record(name, 0)]);
    var leaving := first.(spawns := [Spawn(name, Idle, false, Leaving)]);
    WithoutParts([Record(name, 0)], [], name);
    states, steps := Grow([EMPTY], [], SpawnNew(name), first);
    states, steps := Grow(states, steps, Leave(0), leaving);
    states, steps := Grow(states, steps, Mark(0), State([Spawn(name, Terminated, false, Marked)], map[name := 0], []));
  }

  lemma Grow(states: seq<State>, steps: seq<Step>, step: Step, next: State)
    returns (more: seq<State>, moreSteps: seq<Step>)
    requires IsRun(states, steps) && WellFormed(states[|steps|]) && Enabled(states[|steps|], step)
    requires next == Next(states[|steps|], step)
    ensures IsRun(more, moreSteps) && more == states + [next] && moreSteps == steps + [step]
  {
    more, moreSteps := states + [next], steps + [step];
    forall n | 0 <= n < |moreSteps|
      ensures WellFormed(more[n]) && Enabled(more[n], moreSteps[n]) && more[n + 1] == Next(more[n], moreSteps[n])
    {
      if n < |steps| {
        assert more[n] == states[n] && more[n + 1] == states[n + 1] && moreSteps[n] == steps[n];
      }
    }
  }

  lemma {:induction false} RunKeepsInv(states: seq<State>, steps: seq<Step>, n: nat)
    requires IsRun(states, steps) && n < |states|
    ensures Inv(states[n])
  {
    if n > 0 {
      RunKeepsInv(states, steps, n - 1);
      StepKeepsInv(states[n - 1], steps[n - 1]);
    }
  }

  lemma {:induction false} RunKeepsTerminated(states: seq<State>, steps: seq<Step>, m: nat, n: nat, i: nat)
    requires IsRun(states, steps) && m <= n < |states| && i < |states[m].spawns|
    ensures i < |states[n].spawns| && states[n].spawns[i].name == states[m].spawns[i].name
    ensures states[m].spawns[i].status.Terminated? ==> states[n].spawns[i].status.Terminated?
  {
    if m < n {
      RunKeepsTerminated(states, steps, m, n - 1, i);
      RunKeepsInv(states, steps, n - 1);
      StepKeepsTerminated(states[n - 1], steps[n - 1], i);
    }
  }

  /** In every run there is at most one live goroutine per name. */
  lemma OneLiveGoroutinePerName(states: seq<State>, steps: seq<Step>, n: nat, i: nat, j: nat)
    requires IsRun(states, steps) && n < |states|
    requires i < |states[n].spawns| && j < |states[n].spawns|
    requires states[n].spawns[i].name == states[n].spawns[j].name
    requires Live(states[n].spawns[i]) && Live(states[n].spawns[j])
    ensures i == j
  {
    RunKeepsInv(states, steps, n);
  }

  /** A nil return from Terminate: the call took the agent the name had then, and later saw that
      agent's done closed. That spawn is terminated from then on. */
  lemma TerminateNilMeansTerminated(states: seq<State>, steps: seq<Step>, call: nat, ret: nat, later: nat, name: string)
    requires IsRun(states, steps) && call < ret <= later < |states| && call < |steps|
    requires steps[call] == BeginTerminate(name)
    requires var i := states[call].bots[name]; i < |states[ret].spawns| && states[ret].spawns[i].phase == Done
    ensures var i := states[call].bots[name];
      && i < |states[later].spawns| && states[later].spawns[i].name == name
      && states[later].spawns[i].status.Terminated?
  {
    var i := states[call].bots[name];
    RunKeepsInv(states, steps, call);
    RunKeepsInv(states, steps, ret);
    RunKeepsTerminated(states, steps, call, ret, i);
    RunKeepsTerminated(states, steps, ret, later, i);
  }

  /** A nil return from TearDownAll: every agent that the call took was later seen done. Then every
      agent the manager had at the call is terminated, and stays so. */
  lemma TearDownNilMeansAllTerminated(
      states: seq<State>, steps: seq<Step>, call: nat, ret: nat, later: nat, name: string)
    requires IsRun(states, steps) && call < ret <= later < |states| && call < |steps|
    requires steps[call] == BeginTearDown && name in states[call].bots
    requires var i := states[call].bots[name];
             Active(states[call], name) ==> i < |states[ret].spawns| && states[ret].spawns[i].phase == Done
    ensures var i := states[call].bots[name];
      && i < |states[later].spawns| && states[later].spawns[i].name == name
      && states[later].spawns[i].status.Terminated?
  {
    var i := states[call].bots[name];
    RunKeepsInv(states, steps, ret);
    RunKeepsTerminated(states, steps, call, ret, i);
    RunKeepsTerminated(states, steps, ret, later, i);
  }

  /** Whenever the mutex is free the session records are exactly the agents not terminated. */
  lemma RecordsAreNonTerminated(states: seq<State>, steps: seq<Step>, n: nat, r: Record)
    requires IsRun(states, steps) && n < |states|
    ensures r in states[n].records <==>
              r.spawn < |states[n].spawns| && states[n].spawns[r.spawn].name == r.name
              && !states[n].spawns[r.spawn].status.Terminated?
    ensures multiset(states[n].records)[r] <= 1
  {
    RunKeepsInv(states, steps, n);
  }
}
