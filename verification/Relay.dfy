/** The relay client's subscriptions: registering, attaching a pump to a connection, forwarding,
    removing, and closing the client.

    A step is one section under the client's mutexes, or one action of a pump, a remover or the
    closer between two such sections. Connections are event sources: a pump's inner channel may
    give any event or end at any time, and any attach attempt may reach its locked section. */
module Relay {
  import opened Wrappers

  type Event = string

  // ---------------------------------------------------------------- the client's own fields

  /** A subscription: its generation, its WaitGroup counter, and how often its channel was closed. */
  datatype Entry = Entry(generation: nat, wg: int, closes: nat)

  /** An entry's ID is its place in the order of registering. */
  datatype Client = Client(closed: bool, closedCh: bool, registered: set<nat>, entries: seq<Entry>, pumpWG: int)

  function RegisterNext(c: Client): Client {
    c.(registered := c.registered + {|c.entries|}, entries := c.entries + [Entry(0, 0, 0)])
  }

  predicate MayAttach(c: Client, id: nat) {
    !c.closed && id in c.registered
  }

  function SetEntry(c: Client, id: nat, e: Entry): Client
    requires id < |c.entries|
  {
    c.(entries := c.entries[id := e])
  }

  function AttachNext(c: Client, id: nat): Client
    requires id < |c.entries|
  {
    var e := c.entries[id];
    SetEntry(c, id, e.(generation := e.generation + 1, wg := e.wg + 1)).(pumpWG := c.pumpWG + 1)
  }

  function Unregister(c: Client, id: nat): Client {
    c.(registered := c.registered - {id})
  }

  function CloseOut(c: Client, id: nat): Client
    requires id < |c.entries|
  {
    SetEntry(c, id, c.entries[id].(closes := c.entries[id].closes + 1))
  }

  /** The channels of some entries closed. */
  function CloseOuts(c: Client, ids: set<nat>): (r: Client)
    ensures |r.entries| == |c.entries|
    ensures forall id | 0 <= id < |c.entries| ::
              r.entries[id] == if id in ids then c.entries[id].(closes := c.entries[id].closes + 1) else c.entries[id]
  {
    c.(entries := seq(|c.entries|, id requires 0 <= id < |c.entries| =>
         if id in ids then c.entries[id].(closes := c.entries[id].closes + 1) else c.entries[id]))
  }

  function SweepNext(c: Client): Client {
    CloseOuts(c, c.registered).(registered := {})
  }

  lemma CloseOneMore(c: Client, ids: set<nat>, id: nat)
    requires id !in ids && id < |c.entries|
    ensures CloseOut(CloseOuts(c, ids), id) == CloseOuts(c, ids + {id})
  {
  }

  class SubEntry {
    const id: nat
    var generation: nat
    var wg: int
    var closes: nat

    constructor (id: nat)
      ensures this.id == id && generation == 0 && wg == 0 && closes == 0
    {
      this.id, generation, wg, closes := id, 0, 0, 0;
    }
  }

  class RelayClient {
    var closed: bool
    var closedCh: bool
    var subs: map<nat, SubEntry>
    var nextSubID: nat
    var pumpWG: int
    ghost var made: seq<SubEntry>

    ghost predicate Valid()
      reads this, made
    {
      && nextSubID == |made|
      && (forall i | 0 <= i < |made| :: made[i].id == i)
      && forall id | id in subs :: id < |made| && subs[id] == made[id]
    }

    ghost function View(): Client
      reads this, made
    {
      Client(closed, closedCh, subs.Keys,
        seq(|made|, i requires 0 <= i < |made| reads this, made =>
          Entry(made[i].generation, made[i].wg, made[i].closes)),
        pumpWG)
    }

    constructor ()
      ensures Valid() && View() == Client(false, false, {}, [], 0)
    {
      closed, closedCh, subs, nextSubID, pumpWG, made := false, false, map[], 0, 0, [];
    }

    /** Subscribe's section under subMu. */
    method Register() returns (entry: SubEntry)
      requires Valid()
      modifies this
      ensures Valid() && entry.id == |old(View()).entries| && View() == RegisterNext(old(View()))
    {
      entry := new SubEntry(nextSubID);
      nextSubID := nextSubID + 1;
      subs := subs[entry.id := entry];
      made := made + [entry];
    }

    /** attachSub's last section, under both mutexes: the generation of the pump to start, or an error. */
    method Attach(entry: SubEntry) returns (generation: Option<nat>)
      requires Valid() && entry in made
      modifies this, entry
      ensures Valid() && (generation.Some? <==> MayAttach(old(View()), entry.id))
      ensures generation.None? ==> View() == old(View())
      ensures generation.Some? ==> View() == AttachNext(old(View()), entry.id)
      ensures generation.Some? ==> generation.value == View().entries[entry.id].generation
    {
      if closed {
        return None;
      }
      if entry.id !in subs {
        return None;
      }
      entry.generation := entry.generation + 1;
      entry.wg := entry.wg + 1;
      pumpWG := pumpWG + 1;
      assert forall i | 0 <= i < |made| :: made[i] == entry <==> i == entry.id;
      return Some(entry.generation);
    }

    /** Subscribe's error path. */
    method Forget(id: nat)
      requires Valid()
      modifies this
      ensures Valid() && View() == Unregister(old(View()), id)
    {
      subs := subs - {id};
    }

    /** removeAndClose's section; nothing when the entry is gone already. */
    method Remove(id: nat) returns (entry: Option<SubEntry>)
      requires Valid()
      modifies this
      ensures Valid() && View() == Unregister(old(View()), id)
      ensures entry.Some? <==> id in old(View()).registered
      ensures entry.Some? ==> entry.value in made && entry.value.id == id
    {
      if id !in subs {
        return None;
      }
      entry := Some(subs[id]);
      subs := subs - {id};
    }

    /** The pump's staleness check. */
    method Stale(entry: SubEntry, generation: nat) returns (stale: bool)
      requires Valid() && entry in made
      ensures stale <==> View().entries[entry.id].generation != generation
    {
      return entry.generation != generation;
    }

    /** Close's first section; false when the client was closed already. */
    method BeginClose() returns (first: bool)
      requires Valid()
      modifies this
      ensures Valid() && first == !old(View()).closed && View() == old(View()).(closed := true)
    {
      if closed {
        return false;
      }
      closed := true;
      return true;
    }

    method CloseChannel(e: SubEntry)
      requires Valid() && e in made
      modifies e
      ensures Valid() && View() == CloseOut(old(View()), e.id)
    {
      e.closes := e.closes + 1;
      assert forall i | 0 <= i < |made| :: made[i] == e <==> i == e.id;
    }

    /** Close's last section. */
    method Sweep()
      requires Valid()
      modifies this, made
      ensures Valid() && View() == SweepNext(old(View()))
    {
      ghost var c := View();
      ghost var done: set<nat> := {};
      var todo := subs.Keys;
      assert CloseOuts(c, done) == c;
      while todo != {}
        invariant Valid() && made == old(made) && subs == old(subs)
        invariant done + todo == subs.Keys && done !! todo
        invariant View() == CloseOuts(c, done)
        decreases todo
      {
        var id :| id in todo;
        CloseChannel(subs[id]);
        CloseOneMore(c, done, id);
        todo := todo - {id};
        done := done + {id};
      }
      assert done == c.registered;
      ClearSubs();
    }

    method ClearSubs()
      requires Valid()
      modifies this`subs
      ensures Valid() && View() == old(View()).(registered := {})
    {
      subs := map[];
    }
  }

  // ---------------------------------------------------------------- the whole protocol

  /** Where a pump is: in its select, holding an event not yet checked, holding one that passed the
      staleness check, on its way out, past the entry's Done, past the client's Done. */
  datatype Pc = Selecting | Got(event: Event) | Sending(event: Event) | Leaving | Left | Dead

  /** A pump, with the connection it reads, what its inner channel gave it, what it forwarded, and how
      many of those it forwarded after a newer generation had been attached. */
  datatype Pump = Pump(
    entry: nat, generation: nat, conn: nat, pc: Pc, received: seq<Event>, forwarded: seq<Event>, late: nat)

  /** The Subscribe call of an entry, and the goroutine that waits for its context to end. */
  datatype Phase = NoConn | Attaching | Attached | Returned | Failed

  datatype Remover = NotStarted | Draining | Ended

  datatype Subscriber = Subscriber(phase: Phase, remover: Remover)

  datatype Closer = Open | Closing | Waiting | Drained | Finished

  /** What an entry's channel was sent, each event with the pump that sent it. */
  type Out = seq<(nat, Event)>

  /** The connections are numbered in the order in which they were made current; 0 is none yet. */
  datatype State = State(
    client: Client, subscribers: seq<Subscriber>, outs: seq<Out>, taken: seq<nat>, pumps: seq<Pump>, conn: nat,
    closer: Closer, checked: nat, swept: set<nat>, sweptAt: nat)

  /** The capacity of a subscription's channel. */
  const CAPACITY: nat := 64

  const EMPTY := State(Client(false, false, {}, [], 0), [], [], [], [], 0, Open, 0, {}, 0)

  datatype Step =
    | CheckOpen
    | Register(connected: bool)
    | Reconnect
    | Attach(id: nat, own: bool, conn: nat)
    | Take(id: nat)
    | Return(id: nat)
    | Fail(id: nat)
    | BeginRemove(id: nat)
    | FinishRemove(id: nat)
    | BeginClose
    | CloseChannel
    | Drain
    | Sweep
    | Receive(p: nat, event: Event)
    | InnerEnds(p: nat)
    | SeeClosed(p: nat)
    | Check(p: nat)
    | Send(p: nat)
    | LeaveEntry(p: nat)
    | LeaveClient(p: nat)

  /** The step's own entry or pump exists. */
  predicate InRange(s: State, step: Step) {
    match step
    case Attach(id, _, _) => id < |s.client.entries|
    case Take(id) => id < |s.client.entries|
    case Return(id) => id < |s.client.entries|
    case Fail(id) => id < |s.client.entries|
    case BeginRemove(id) => id < |s.client.entries|
    case FinishRemove(id) => id < |s.client.entries|
    case Receive(p, _) => PumpInRange(s, p)
    case InnerEnds(p) => PumpInRange(s, p)
    case SeeClosed(p) => PumpInRange(s, p)
    case Check(p) => PumpInRange(s, p)
    case Send(p) => PumpInRange(s, p)
    case LeaveEntry(p) => PumpInRange(s, p)
    case LeaveClient(p) => PumpInRange(s, p)
    case _ => true
  }

  predicate PumpInRange(s: State, p: nat) {
    p < |s.pumps| && s.pumps[p].entry < |s.client.entries|
  }

  predicate Sized(s: State) {
    |s.subscribers| == |s.client.entries| == |s.outs| == |s.taken|
  }

  predicate Current(s: State, p: nat)
    requires PumpInRange(s, p)
  {
    s.client.entries[s.pumps[p].entry].generation == s.pumps[p].generation
  }

  predicate HasRoom(s: State, id: nat)
    requires Sized(s) && id < |s.outs|
  {
    |s.outs[id]| < s.taken[id] + CAPACITY
  }

  predicate Enabled(s: State, step: Step) {
    && Sized(s) && InRange(s, step)
    && match step
       case CheckOpen => !s.client.closed
       case Register(connected) => s.checked > 0 && (connected ==> s.conn > 0)
       case Reconnect => !s.client.closed
       case Take(id) => s.taken[id] < |s.outs[id]|
       case Attach(id, own, conn) =>
         MayAttach(s.client, id) && 1 <= conn <= s.conn && (own ==> s.subscribers[id].phase == Attaching)
       case Return(id) => s.subscribers[id].phase in {NoConn, Attached}
       case Fail(id) => s.subscribers[id].phase == Attaching
       case BeginRemove(id) => s.subscribers[id] == Subscriber(Returned, NotStarted)
       case FinishRemove(id) => s.subscribers[id].remover == Draining && s.client.entries[id].wg == 0
       case BeginClose => !s.client.closed
       case CloseChannel => s.closer == Closing
       case Drain => s.closer == Waiting && s.client.pumpWG == 0
       case Sweep => s.closer == Drained
       case Receive(p, _) => s.pumps[p].pc == Selecting
       case InnerEnds(p) => s.pumps[p].pc == Selecting
       case SeeClosed(p) => s.client.closedCh && (s.pumps[p].pc == Selecting || s.pumps[p].pc.Sending?)
       case Check(p) => s.pumps[p].pc.Got?
       case Send(p) => s.pumps[p].pc.Sending? && HasRoom(s, s.pumps[p].entry)
       case LeaveEntry(p) => s.pumps[p].pc == Leaving
       case LeaveClient(p) => s.pumps[p].pc == Left
  }

  function SetPhase(s: State, id: nat, phase: Phase): State
    requires id < |s.subscribers|
  {
    s.(subscribers := s.subscribers[id := s.subscribers[id].(phase := phase)])
  }

  function SetRemover(s: State, id: nat, remover: Remover): State
    requires id < |s.subscribers|
  {
    s.(subscribers := s.subscribers[id := s.subscribers[id].(remover := remover)])
  }

  function SetPump(s: State, p: nat, pump: Pump): State
    requires p < |s.pumps|
  {
    s.(pumps := s.pumps[p := pump])
  }

  function SetPc(s: State, p: nat, pc: Pc): State
    requires p < |s.pumps|
  {
    SetPump(s, p, s.pumps[p].(pc := pc))
  }

  function NewPump(c: Client, id: nat, conn: nat): Pump
    requires id < |c.entries|
  {
    Pump(id, c.entries[id].generation + 1, conn, Selecting, [], [], 0)
  }

  function AttachPump(s: State, id: nat, conn: nat): State
    requires id < |s.client.entries|
  {
    s.(client := AttachNext(s.client, id),
       pumps := s.pumps + [NewPump(s.client, id, conn)])
  }

  function SendNext(s: State, p: nat): State
    requires Sized(s) && PumpInRange(s, p) && s.pumps[p].pc.Sending?
  {
    var pump := s.pumps[p];
    var sent := pump.(pc := Selecting, forwarded := pump.forwarded + [pump.pc.event],
                      late := pump.late + if Current(s, p) then 0 else 1);
    SetPump(s, p, sent).(outs := s.outs[pump.entry := s.outs[pump.entry] + [(p, pump.pc.event)]])
  }

  function LeaveEntryNext(s: State, p: nat): State
    requires PumpInRange(s, p)
  {
    var id := s.pumps[p].entry;
    SetPc(s, p, Left).(client := SetEntry(s.client, id, s.client.entries[id].(wg := s.client.entries[id].wg - 1)))
  }

  function Next(s: State, step: Step): State
    requires Enabled(s, step)
  {
    match step
    case CheckOpen => s.(checked := s.checked + 1)
    case Register(connected) =>
      s.(client := RegisterNext(s.client), outs := s.outs + [[]], taken := s.taken + [0], checked := s.checked - 1,
         subscribers := s.subscribers + [Subscriber(if connected then Attaching else NoConn, NotStarted)])
    case Reconnect => s.(conn := s.conn + 1)
    case Attach(id, own, conn) =>
      if own then SetPhase(AttachPump(s, id, conn), id, Attached) else AttachPump(s, id, conn)
    case Take(id) => s.(taken := s.taken[id := s.taken[id] + 1])
    case Return(id) => SetPhase(s, id, Returned)
    case Fail(id) => SetPhase(s, id, Failed).(client := Unregister(s.client, id))
    case BeginRemove(id) =>
      SetRemover(s, id, if id in s.client.registered then Draining else Ended).(client := Unregister(s.client, id))
    case FinishRemove(id) => SetRemover(s, id, Ended).(client := CloseOut(s.client, id))
    case BeginClose => s.(client := s.client.(closed := true), closer := Closing)
    case CloseChannel => s.(client := s.client.(closedCh := true), closer := Waiting)
    case Drain => s.(closer := Drained)
    case Sweep =>
      s.(client := SweepNext(s.client), closer := Finished, swept := s.client.registered, sweptAt := |s.client.entries|)
    case Receive(p, event) => SetPump(s, p, s.pumps[p].(pc := Got(event), received := s.pumps[p].received + [event]))
    case InnerEnds(p) => SetPc(s, p, Leaving)
    case SeeClosed(p) => SetPc(s, p, Leaving)
    case Check(p) => SetPc(s, p, if Current(s, p) then Sending(s.pumps[p].pc.event) else Leaving)
    case Send(p) => SendNext(s, p)
    case LeaveEntry(p) => LeaveEntryNext(s, p)
    case LeaveClient(p) => SetPc(s, p, Dead).(client := s.client.(pumpWG := s.client.pumpWG - 1))
  }

  ghost predicate Moves(s: State, step: Step, t: State) {
    Enabled(s, step) && t == Next(s, step)
  }

  ghost predicate IsRun(states: seq<State>, steps: seq<Step>) {
    && |states| == |steps| + 1 && states[0] == EMPTY
    && forall n {:trigger steps[n]} | 0 <= n < |steps| :: Moves(states[n], steps[n], states[n + 1])
  }

  /** The second run goes on where the first one ends. */
  ghost predicate GoesOn(states: seq<State>, steps: seq<Step>, more: seq<State>, moreSteps: seq<Step>) {
    IsRun(states, steps) && IsRun(more, moreSteps) && states <= more && steps <= moreSteps
  }

  lemma Grow(states: seq<State>, steps: seq<Step>, step: Step, next: State)
    returns (more: seq<State>, moreSteps: seq<Step>)
    requires IsRun(states, steps) && Moves(states[|steps|], step, next)
    ensures IsRun(more, moreSteps) && more == states + [next] && moreSteps == steps + [step]
  {
    more, moreSteps := states + [next], steps + [step];
    forall n | 0 <= n < |moreSteps| ensures Moves(more[n], moreSteps[n], more[n + 1]) {
      assert n < |steps| ==> Moves(states[n], steps[n], states[n + 1]);
    }
  }

  lemma Continue(states: seq<State>, steps: seq<Step>, step: Step) returns (more: seq<State>, moreSteps: seq<Step>)
    requires IsRun(states, steps) && Enabled(states[|steps|], step)
    ensures GoesOn(states, steps, more, moreSteps) && |moreSteps| == |steps| + 1
    ensures moreSteps[|steps|] == step && more[|moreSteps|] == Next(states[|steps|], step)
  {
    more, moreSteps := Grow(states, steps, step, Next(states[|steps|], step));
  }

  // ---------------------------------------------------------------- counting pumps

  predicate Holds(pump: Pump) {
    pump.pc != Left && pump.pc != Dead
  }

  /** The pumps an entry's WaitGroup waits for. */
  function Holders(pumps: seq<Pump>, id: nat): set<nat> {
    set p | 0 <= p < |pumps| && pumps[p].entry == id && Holds(pumps[p])
  }

  function Live(pumps: seq<Pump>): set<nat> {
    set p | 0 <= p < |pumps| && pumps[p].pc != Dead
  }

  ghost predicate Counted(s: State) {
    && Sized(s)
    && (forall p | 0 <= p < |s.pumps| :: s.pumps[p].entry < |s.client.entries|)
    && (forall id | 0 <= id < |s.client.entries| :: s.client.entries[id].wg == |Holders(s.pumps, id)|)
    && s.client.pumpWG == |Live(s.pumps)|
  }

  lemma SameCounts(pumps: seq<Pump>, p: nat, pump: Pump, id: nat)
    requires p < |pumps| && pump.entry == pumps[p].entry
    requires Holds(pump) == Holds(pumps[p]) && (pump.pc == Dead) == (pumps[p].pc == Dead)
    ensures Holders(pumps[p := pump], id) == Holders(pumps, id) && Live(pumps[p := pump]) == Live(pumps)
  {
  }

  lemma OneMoreHolder(pumps: seq<Pump>, pump: Pump, id: nat)
    requires Holds(pump)
    ensures |Holders(pumps + [pump], id)| == |Holders(pumps, id)| + if pump.entry == id then 1 else 0
  {
    var more := pumps + [pump];
    assert forall p | 0 <= p < |pumps| :: more[p] == pumps[p];
    if pump.entry == id {
      assert Holders(more, id) == Holders(pumps, id) + {|pumps|};
    } else {
      assert Holders(more, id) == Holders(pumps, id);
    }
  }

  lemma OneMoreLive(pumps: seq<Pump>, pump: Pump)
    requires pump.pc != Dead
    ensures |Live(pumps + [pump])| == |Live(pumps)| + 1
  {
    var more := pumps + [pump];
    assert forall p | 0 <= p < |pumps| :: more[p] == pumps[p];
    assert Live(more) == Live(pumps) + {|pumps|};
  }

  lemma OneHolderLess(pumps: seq<Pump>, p: nat, id: nat)
    requires p < |pumps| && Holds(pumps[p])
    ensures var t := pumps[p := pumps[p].(pc := Left)];
            Live(t) == Live(pumps) && |Holders(t, id)| == |Holders(pumps, id)| - if pumps[p].entry == id then 1 else 0
  {
    var t := pumps[p := pumps[p].(pc := Left)];
    assert Live(t) == Live(pumps);
    assert Holders(t, id) == Holders(pumps, id) - if pumps[p].entry == id then {p} else {};
    assert pumps[p].entry == id ==> p in Holders(pumps, id);
  }

  lemma OneLiveLess(pumps: seq<Pump>, p: nat, id: nat)
    requires p < |pumps| && pumps[p].pc == Left
    ensures var t := pumps[p := pumps[p].(pc := Dead)];
            |Live(t)| == |Live(pumps)| - 1 && Holders(t, id) == Holders(pumps, id)
  {
    var t := pumps[p := pumps[p].(pc := Dead)];
    assert p in Live(pumps) && Live(t) == Live(pumps) - {p};
    assert Holders(t, id) == Holders(pumps, id);
  }

  lemma NoneForNew(pumps: seq<Pump>, id: nat)
    requires forall p | 0 <= p < |pumps| :: pumps[p].entry < id
    ensures |Holders(pumps, id)| == 0
  {
    assert Holders(pumps, id) == {};
  }

  /** The WaitGroups count the pumps that have not yet called Done. */
  lemma CountsKept(s: State, step: Step)
    requires Counted(s) && Enabled(s, step)
    ensures Counted(Next(s, step))
  {
    match step
    case Register(_) => NoneForNew(s.pumps, |s.client.entries|);
    case Attach(_, _, _) => AttachCounts(s, step);
    case LeaveEntry(_) => LeaveEntryCounts(s, step);
    case LeaveClient(_) => LeaveClientCounts(s, step);
    case _ => QuietStepCounts(s, step);
  }

  lemma AttachCounts(s: State, step: Step)
    requires Counted(s) && Enabled(s, step) && step.Attach?
    ensures Counted(Next(s, step))
  {
    var t := Next(s, step);
    forall e | 0 <= e < |t.client.entries| ensures t.client.entries[e].wg == |Holders(t.pumps, e)| {
      OneMoreHolder(s.pumps, t.pumps[|s.pumps|], e);
    }
    OneMoreLive(s.pumps, t.pumps[|s.pumps|]);
  }

  lemma LeaveEntryCounts(s: State, step: Step)
    requires Counted(s) && Enabled(s, step) && step.LeaveEntry?
    ensures Counted(Next(s, step))
  {
    var t := Next(s, step);
    forall e | 0 <= e < |t.client.entries| ensures t.client.entries[e].wg == |Holders(t.pumps, e)| {
      OneHolderLess(s.pumps, step.p, e);
    }
    OneHolderLess(s.pumps, step.p, 0);
  }

  lemma LeaveClientCounts(s: State, step: Step)
    requires Counted(s) && Enabled(s, step) && step.LeaveClient?
    ensures Counted(Next(s, step))
  {
    var t := Next(s, step);
    forall e | 0 <= e < |t.client.entries| ensures t.client.entries[e].wg == |Holders(t.pumps, e)| {
      OneLiveLess(s.pumps, step.p, e);
    }
    OneLiveLess(s.pumps, step.p, 0);
  }

  /** The steps that neither start a pump nor call a Done. */
  lemma QuietStepCounts(s: State, step: Step)
    requires Counted(s) && Enabled(s, step)
    requires !step.Register? && !step.Attach? && !step.LeaveEntry? && !step.LeaveClient?
    ensures Counted(Next(s, step))
  {
    var t := Next(s, step);
    match step
    case Receive(p, _) => PumpMovesOn(s, p, t.pumps[p]);
    case InnerEnds(p) => PumpMovesOn(s, p, t.pumps[p]);
    case SeeClosed(p) => PumpMovesOn(s, p, t.pumps[p]);
    case Check(p) => PumpMovesOn(s, p, t.pumps[p]);
    case Send(p) => PumpMovesOn(s, p, t.pumps[p]);
    case _ =>
  }

  lemma PumpMovesOn(s: State, p: nat, pump: Pump)
    requires Counted(s) && p < |s.pumps| && pump.entry == s.pumps[p].entry && Holds(pump) && Holds(s.pumps[p])
    ensures Counted(SetPump(s, p, pump))
  {
    forall e | 0 <= e < |s.client.entries| ensures s.client.entries[e].wg == |Holders(s.pumps[p := pump], e)| {
      SameCounts(s.pumps, p, pump, e);
    }
    SameCounts(s.pumps, p, pump, 0);
  }

  lemma NoHolders(pumps: seq<Pump>, id: nat)
    requires |Holders(pumps, id)| == 0
    ensures NoneHolds(pumps, id)
  {
    forall p | 0 <= p < |pumps| && pumps[p].entry == id ensures !Holds(pumps[p]) {
      assert p !in Holders(pumps, id);
    }
  }

  lemma NoneLive(pumps: seq<Pump>)
    requires |Live(pumps)| == 0
    ensures forall p | 0 <= p < |pumps| :: pumps[p].pc == Dead
  {
    forall p | 0 <= p < |pumps| ensures pumps[p].pc == Dead {
      assert p !in Live(pumps);
    }
  }

  // ---------------------------------------------------------------- closing

  /** A channel is closed once at most, only when no pump of its entry can still send, and never
      while the entry is registered or its remover still waits. */
  ghost predicate EntryOk(s: State, id: nat)
    requires Sized(s) && id < |s.client.entries|
  {
    var closes, subscriber := s.client.entries[id].closes, s.subscribers[id];
    && closes <= 1
    && (id in s.client.registered ==> closes == 0 && subscriber.remover == NotStarted && subscriber.phase != Failed)
    && (subscriber.remover == Draining ==> closes == 0)
    && (closes == 1 ==> NoneHolds(s.pumps, id))
  }

  ghost predicate NoneHolds(pumps: seq<Pump>, id: nat) {
    forall p | 0 <= p < |pumps| && pumps[p].entry == id :: !Holds(pumps[p])
  }

  ghost predicate CloserOk(s: State) {
    && (s.client.closed <==> s.closer != Open)
    && (s.client.closedCh <==> s.closer == Waiting || s.closer == Drained || s.closer == Finished)
    && (s.closer == Drained || s.closer == Finished ==> forall p | 0 <= p < |s.pumps| :: s.pumps[p].pc == Dead)
  }

  ghost predicate ClosingInv(s: State) {
    && Counted(s) && CloserOk(s)
    && (forall id | id in s.client.registered :: id < |s.client.entries|)
    && forall id | 0 <= id < |s.client.entries| :: EntryOk(s, id)
  }

  lemma CloserKept(s: State, step: Step)
    requires ClosingInv(s) && Enabled(s, step)
    ensures CloserOk(Next(s, step))
  {
    if step == Drain {
      NoneLive(s.pumps);
    }
  }

  lemma EntryKept(s: State, step: Step, id: nat)
    requires ClosingInv(s) && Enabled(s, step) && id < |Next(s, step).client.entries|
    requires Sized(Next(s, step))
    ensures EntryOk(Next(s, step), id)
  {
    assert id < |s.client.entries| ==> EntryOk(s, id);
    var t := Next(s, step);
    if id < |s.client.entries| && t.client.entries[id].closes == 1 {
      if s.client.entries[id].closes == 1 {
        StillNoneHolds(s, step, id);
      } else if step.FinishRemove? {
        NoHolders(s.pumps, id);
      }
    }
  }

  lemma StillNoneHolds(s: State, step: Step, id: nat)
    requires Enabled(s, step) && NoneHolds(s.pumps, id) && id !in s.client.registered
    ensures NoneHolds(Next(s, step).pumps, id)
  {
  }

  lemma ClosingKept(s: State, step: Step)
    requires ClosingInv(s) && Enabled(s, step)
    ensures ClosingInv(Next(s, step))
  {
    CountsKept(s, step);
    CloserKept(s, step);
    forall id | 0 <= id < |Next(s, step).client.entries| ensures EntryOk(Next(s, step), id) {
      EntryKept(s, step, id);
    }
  }

  lemma {:induction false} ClosingHolds(states: seq<State>, steps: seq<Step>, n: nat)
    requires IsRun(states, steps) && n < |states|
    ensures ClosingInv(states[n])
  {
    if n == 0 {
      assert Live([]) == {};
    } else {
      ClosingHolds(states, steps, n - 1);
      ClosingKept(states[n - 1], steps[n - 1]);
    }
  }

  /** No pump ever sends on a closed channel. */
  lemma NeverSendsOnClosed(states: seq<State>, steps: seq<Step>, n: nat, p: nat)
    requires IsRun(states, steps) && n < |steps| && steps[n] == Send(p)
    ensures p < |states[n].pumps| && states[n].pumps[p].entry < |states[n].client.entries|
    ensures states[n].client.entries[states[n].pumps[p].entry].closes == 0
  {
    ClosingHolds(states, steps, n);
    assert EntryOk(states[n], states[n].pumps[p].entry);
  }

  /** No channel is ever closed twice, and no WaitGroup counter goes below zero. */
  lemma ClosedAtMostOnce(states: seq<State>, steps: seq<Step>, n: nat, id: nat)
    requires IsRun(states, steps) && n < |states| && id < |states[n].client.entries|
    ensures states[n].client.entries[id].closes <= 1
    ensures states[n].client.entries[id].wg >= 0 && states[n].client.pumpWG >= 0
  {
    ClosingHolds(states, steps, n);
    assert EntryOk(states[n], id);
  }

  /** Once Close has returned no pump is alive and none can start. */
  lemma NoPumpAfterClose(states: seq<State>, steps: seq<Step>, n: nat)
    requires IsRun(states, steps) && n < |states| && states[n].closer == Finished
    ensures forall p | 0 <= p < |states[n].pumps| :: states[n].pumps[p].pc == Dead
    ensures states[n].client.pumpWG == 0
    ensures n < |steps| ==>
              !steps[n].Attach? && states[n + 1].closer == Finished && states[n + 1].pumps == states[n].pumps
  {
    ClosingHolds(states, steps, n);
    assert Live(states[n].pumps) == {};
  }

  // ---------------------------------------------------------------- Close makes progress

  /** How many steps a pump is from its end, receiving nothing more. */
  function Distance(pump: Pump): nat {
    match pump.pc
    case Got(_) => 5
    case Sending(_) => 4
    case Selecting => 3
    case Leaving => 2
    case Left => 1
    case Dead => 0
  }

  function TotalDistance(pumps: seq<Pump>): nat {
    if pumps == [] then 0 else TotalDistance(pumps[..|pumps| - 1]) + Distance(pumps[|pumps| - 1])
  }

  lemma {:induction false} DistanceOfChange(pumps: seq<Pump>, p: nat, pump: Pump)
    requires p < |pumps|
    ensures TotalDistance(pumps[p := pump]) == TotalDistance(pumps) - Distance(pumps[p]) + Distance(pump)
  {
    var init, changed := pumps[..|pumps| - 1], pumps[p := pump];
    if p == |pumps| - 1 {
      assert changed[..|pumps| - 1] == init;
    } else {
      assert changed[..|pumps| - 1] == init[p := pump];
      DistanceOfChange(init, p, pump);
    }
  }

  lemma {:induction false} DistanceBounded(pumps: seq<Pump>)
    ensures TotalDistance(pumps) <= 5 * |pumps|
  {
    if pumps != [] {
      DistanceBounded(pumps[..|pumps| - 1]);
    }
  }

  predicate IsPumpStep(step: Step) {
    step.Receive? || step.InnerEnds? || step.SeeClosed? || step.Check?
    || step.Send? || step.LeaveEntry? || step.LeaveClient?
  }

  /** While Close waits only an event received takes the pumps further from their end, by two steps;
      every other pump step brings them nearer, and no other step moves them. */
  lemma WaitingStep(s: State, step: Step)
    requires ClosingInv(s) && Enabled(s, step) && s.closer == Waiting
    ensures var before, after := TotalDistance(s.pumps), TotalDistance(Next(s, step).pumps);
      && (step.Receive? ==> after == before + 2)
      && (IsPumpStep(step) && !step.Receive? ==> after < before)
      && (!IsPumpStep(step) ==> after == before)
  {
    if IsPumpStep(step) {
      DistanceOfChange(s.pumps, step.p, Next(s, step).pumps[step.p]);
    }
  }

  /** While Close waits every pump that is not at its end has a step of its own to take. */
  lemma WaitingPumpCanMove(s: State, p: nat) returns (step: Step)
    requires ClosingInv(s) && s.closer == Waiting && p < |s.pumps| && s.pumps[p].pc != Dead
    ensures Enabled(s, step) && IsPumpStep(step) && !step.Receive? && step.p == p
    ensures Next(s, step).closer == Waiting && |Next(s, step).pumps| == |s.pumps|
  {
    match s.pumps[p].pc
    case Selecting => step := SeeClosed(p);
    case Got(_) => step := Check(p);
    case Sending(_) => step := SeeClosed(p);
    case Leaving => step := LeaveEntry(p);
    case Left => step := LeaveClient(p);
  }

  lemma SomePumpLive(s: State) returns (p: nat)
    requires ClosingInv(s) && s.client.pumpWG != 0
    ensures p < |s.pumps| && s.pumps[p].pc != Dead
  {
    assert Live(s.pumps) != {};
    p :| p in Live(s.pumps);
  }

  /** Close is never stuck on a pump: from any point of its wait at most five steps per pump, all of
      them the pumps' own, bring the counter to zero. */
  lemma {:induction false} CloseCanFinish(states: seq<State>, steps: seq<Step>)
    returns (more: seq<State>, moreSteps: seq<Step>)
    requires IsRun(states, steps) && states[|steps|].closer == Waiting
    ensures GoesOn(states, steps, more, moreSteps) && Enabled(more[|moreSteps|], Drain)
    ensures forall k | |steps| <= k < |moreSteps| :: IsPumpStep(moreSteps[k])
    ensures |moreSteps| - |steps| <= TotalDistance(states[|steps|].pumps) <= 5 * |states[|steps|].pumps|
    decreases TotalDistance(states[|steps|].pumps)
  {
    var s := states[|steps|];
    ClosingHolds(states, steps, |steps|);
    DistanceBounded(s.pumps);
    if s.client.pumpWG == 0 {
      more, moreSteps := states, steps;
    } else {
      var p := SomePumpLive(s);
      var step := WaitingPumpCanMove(s, p);
      WaitingStep(s, step);
      var nextStates, nextSteps := Continue(states, steps, step);
      more, moreSteps := CloseCanFinish(nextStates, nextSteps);
    }
  }

  // ---------------------------------------------------------------- a removal and its reader

  /** The reader never takes more than was sent, and the channel never holds more than its capacity. */
  ghost predicate ChannelInv(s: State) {
    && Sized(s)
    && forall id | 0 <= id < |s.outs| :: s.taken[id] <= |s.outs[id]| <= s.taken[id] + CAPACITY
  }

  lemma ChannelKept(s: State, step: Step)
    requires ChannelInv(s) && Enabled(s, step)
    ensures ChannelInv(Next(s, step))
  {
  }

  lemma {:induction false} ChannelHolds(states: seq<State>, steps: seq<Step>, n: nat)
    requires IsRun(states, steps) && n < |states|
    ensures ChannelInv(states[n])
  {
    if n > 0 {
      ChannelHolds(states, steps, n - 1);
      assert Moves(states[n - 1], steps[n - 1], states[n]);
      ChannelKept(states[n - 1], steps[n - 1]);
    }
  }

  /** The pump has an event that it will send: one past its check, or one the check will pass. */
  predicate Committed(s: State, p: nat) {
    PumpInRange(s, p) && (s.pumps[p].pc.Sending? || (s.pumps[p].pc.Got? && Current(s, p)))
  }

  function CommittedTo(s: State, id: nat): set<nat> {
    set p | 0 <= p < |s.pumps| && s.pumps[p].entry == id && Committed(s, p)
  }

  function Free(s: State, id: nat): int
    requires Sized(s) && id < |s.outs|
  {
    s.taken[id] + CAPACITY - |s.outs[id]|
  }

  /** Neither the entry's reader nor Close lends a hand. */
  predicate Unaided(step: Step, id: nat) {
    step != Take(id) && !step.CloseChannel?
  }

  /** The remover of the entry waits, and Close has not got to its channel. */
  predicate Removing(s: State, id: nat) {
    Sized(s) && id < |s.subscribers| && s.subscribers[id].remover == Draining && !s.client.closedCh
  }

  predicate Overcommitted(s: State, id: nat)
    requires Sized(s) && id < |s.outs|
  {
    |CommittedTo(s, id)| > Free(s, id)
  }

  lemma DifferAtOne(a: set<nat>, b: set<nat>, p: nat)
    requires forall q | q != p :: q in a <==> q in b
    ensures |b| == |a| - (if p in a then 1 else 0) + (if p in b then 1 else 0)
  {
    assert a == (a - {p}) + if p in a then {p} else {};
    assert b == (a - {p}) + if p in b then {p} else {};
  }

  lemma PumpStepLeavesOthers(s: State, step: Step, q: nat)
    requires Enabled(s, step) && IsPumpStep(step) && q != step.p
    ensures |Next(s, step).pumps| == |s.pumps|
    ensures q < |s.pumps| ==> Next(s, step).pumps[q] == s.pumps[q] && (Committed(Next(s, step), q) <==> Committed(s, q))
  {
  }

  /** A pump step changes the count by its own pump alone. */
  lemma PumpStepCommits(s: State, step: Step, id: nat)
    requires Enabled(s, step) && IsPumpStep(step) && id < |s.outs|
    ensures var t := Next(s, step);
      |CommittedTo(t, id)| == |CommittedTo(s, id)|
        - (if step.p in CommittedTo(s, id) then 1 else 0)
        + (if step.p in CommittedTo(t, id) then 1 else 0)
  {
    forall q | q != step.p ensures q in CommittedTo(s, id) <==> q in CommittedTo(Next(s, step), id) {
      PumpStepLeavesOthers(s, step, q);
    }
    DifferAtOne(CommittedTo(s, id), CommittedTo(Next(s, step), id), step.p);
  }

  /** What a pump step does to its own pump's commitment, and to the room left. */
  lemma PumpStepRoom(s: State, step: Step, id: nat)
    requires Enabled(s, step) && IsPumpStep(step) && id < |s.outs|
    ensures var t := Next(s, step);
      && Sized(t) && |t.outs| == |s.outs|
      && (step.Send? && s.pumps[step.p].entry == id ==>
            step.p in CommittedTo(s, id) && step.p !in CommittedTo(t, id) && Free(t, id) == Free(s, id) - 1)
      && (!(step.Send? && s.pumps[step.p].entry == id) ==> Free(t, id) == Free(s, id))
      && (!step.Send? && step.p in CommittedTo(s, id) && !s.client.closedCh ==> step.p in CommittedTo(t, id))
      && (!step.Receive? && step.p in CommittedTo(t, id) ==> step.p in CommittedTo(s, id))
  {
  }

  /** Other steps leave it as it was while no pump can be attached to the entry. */
  lemma OtherStepCommits(s: State, step: Step, id: nat)
    requires Counted(s) && Enabled(s, step) && !IsPumpStep(step) && id < |s.outs| && id !in s.client.registered
    ensures CommittedTo(Next(s, step), id) == CommittedTo(s, id)
  {
    forall q ensures q in CommittedTo(Next(s, step), id) <==> q in CommittedTo(s, id) {
      OtherStepCommitsOne(s, step, id, q);
    }
  }

  lemma OtherStepCommitsOne(s: State, step: Step, id: nat, q: nat)
    requires Counted(s) && Enabled(s, step) && !IsPumpStep(step) && id < |s.outs| && id !in s.client.registered
    ensures q in CommittedTo(Next(s, step), id) <==> q in CommittedTo(s, id)
  {
    var t := Next(s, step);
    assert q < |s.pumps| ==> t.pumps[q] == s.pumps[q];
    assert |s.pumps| <= q < |t.pumps| ==> t.pumps[q].entry != id;
  }

  lemma CommittedHolds(s: State, id: nat)
    requires Counted(s) && id < |s.outs| && |CommittedTo(s, id)| > 0
    ensures s.client.entries[id].wg > 0
  {
    var p :| p in CommittedTo(s, id);
    assert p in Holders(s.pumps, id);
  }

  lemma StillRemoving(s: State, step: Step, id: nat)
    requires Removing(s, id) && Enabled(s, step) && Unaided(step, id) && step != FinishRemove(id)
    ensures Removing(Next(s, step), id)
    ensures !IsPumpStep(step) ==> Free(Next(s, step), id) == Free(s, id)
  {
  }

  /** Unaided, a waiting remover whose pumps hold more events than the channel has room for stays so. */
  lemma OvercommittedStays(s: State, step: Step, id: nat)
    requires ClosingInv(s) && ChannelInv(s) && Removing(s, id) && Overcommitted(s, id)
    requires Enabled(s, step) && Unaided(step, id)
    ensures Removing(Next(s, step), id) && Overcommitted(Next(s, step), id)
  {
    assert EntryOk(s, id);
    CommittedHolds(s, id);
    StillRemoving(s, step, id);
    if IsPumpStep(step) {
      PumpStepCommits(s, step, id);
      PumpStepRoom(s, step, id);
    } else {
      OtherStepCommits(s, step, id);
    }
  }

  ghost predicate FinishesUnaided(
    states: seq<State>, steps: seq<Step>, more: seq<State>, moreSteps: seq<Step>, id: nat)
  {
    && GoesOn(states, steps, more, moreSteps)
    && (forall k | |steps| <= k < |moreSteps| :: Unaided(moreSteps[k], id))
    && id < |more[|moreSteps|].subscribers| && more[|moreSteps|].subscribers[id].remover == Ended
  }

  lemma {:induction false} OvercommittedForever(
      more: seq<State>, moreSteps: seq<Step>, m: nat, n: nat, id: nat)
    requires IsRun(more, moreSteps) && m <= n < |more| && Removing(more[m], id) && Overcommitted(more[m], id)
    requires forall k | m <= k < n :: Unaided(moreSteps[k], id)
    ensures Removing(more[n], id) && Overcommitted(more[n], id)
  {
    if m < n {
      OvercommittedForever(more, moreSteps, m, n - 1, id);
      RunStepOvercommitted(more, moreSteps, n, id);
    }
  }

  lemma RunStepOvercommitted(states: seq<State>, steps: seq<Step>, n: nat, id: nat)
    requires IsRun(states, steps) && 0 < n < |states| && Unaided(steps[n - 1], id)
    requires Removing(states[n - 1], id) && Overcommitted(states[n - 1], id)
    ensures Removing(states[n], id) && Overcommitted(states[n], id)
  {
    ClosingHolds(states, steps, n - 1);
    ChannelHolds(states, steps, n - 1);
    assert Moves(states[n - 1], steps[n - 1], states[n]);
    OvercommittedStays(states[n - 1], steps[n - 1], id);
  }

  /** Otherwise every pump the remover waits for can take a step towards its end on its own. */
  lemma HolderCanMove(s: State, id: nat, p: nat) returns (step: Step)
    requires ClosingInv(s) && Removing(s, id) && !Overcommitted(s, id)
    requires p in Holders(s.pumps, id)
    ensures Enabled(s, step) && IsPumpStep(step) && step.p == p && Unaided(step, id)
    ensures Removing(Next(s, step), id) && !Overcommitted(Next(s, step), id)
    ensures TotalDistance(Next(s, step).pumps) < TotalDistance(s.pumps)
  {
    step := OwnMove(s, id, p);
    StillRemoving(s, step, id);
    PumpStepCommits(s, step, id);
    PumpStepRoom(s, step, id);
    DistanceOfChange(s.pumps, p, Next(s, step).pumps[p]);
  }

  lemma OwnMove(s: State, id: nat, p: nat) returns (step: Step)
    requires ClosingInv(s) && Removing(s, id) && !Overcommitted(s, id)
    requires p in Holders(s.pumps, id)
    ensures Enabled(s, step) && IsPumpStep(step) && step.p == p && !step.Receive?
    ensures Next(s, step).pumps == s.pumps[p := Next(s, step).pumps[p]]
    ensures Distance(Next(s, step).pumps[p]) < Distance(s.pumps[p])
  {
    match s.pumps[p].pc {
      case Selecting => step := InnerEnds(p);
      case Got(_) => step := Check(p);
      case Sending(_) =>
        assert p in CommittedTo(s, id);
        step := Send(p);
      case Leaving => step := LeaveEntry(p);
    }
  }

  lemma {:induction false} RemovalCanFinish(states: seq<State>, steps: seq<Step>, id: nat)
    returns (more: seq<State>, moreSteps: seq<Step>)
    requires IsRun(states, steps) && Removing(states[|steps|], id) && !Overcommitted(states[|steps|], id)
    ensures FinishesUnaided(states, steps, more, moreSteps, id)
    decreases TotalDistance(states[|steps|].pumps)
  {
    var s := states[|steps|];
    ClosingHolds(states, steps, |steps|);
    if s.client.entries[id].wg == 0 {
      more, moreSteps := Continue(states, steps, FinishRemove(id));
      LastFinishes(states, steps, more, moreSteps, id);
    } else {
      assert Holders(s.pumps, id) != {};
      var p :| p in Holders(s.pumps, id);
      var step := HolderCanMove(s, id, p);
      var nextStates, nextSteps := Continue(states, steps, step);
      more, moreSteps := RemovalCanFinish(nextStates, nextSteps, id);
      FinishesFromEarlier(states, steps, nextStates, nextSteps, more, moreSteps, id);
    }
  }

  lemma FinishesFromEarlier(
      states: seq<State>, steps: seq<Step>, nextStates: seq<State>, nextSteps: seq<Step>,
      more: seq<State>, moreSteps: seq<Step>, id: nat)
    requires GoesOn(states, steps, nextStates, nextSteps) && |nextSteps| == |steps| + 1
    requires Unaided(nextSteps[|steps|], id) && FinishesUnaided(nextStates, nextSteps, more, moreSteps, id)
    ensures FinishesUnaided(states, steps, more, moreSteps, id)
  {
    assert moreSteps[|steps|] == nextSteps[|steps|];
  }

  lemma LastFinishes(states: seq<State>, steps: seq<Step>, more: seq<State>, moreSteps: seq<Step>, id: nat)
    requires GoesOn(states, steps, more, moreSteps) && |moreSteps| == |steps| + 1
    requires moreSteps[|steps|] == FinishRemove(id) && Enabled(states[|steps|], FinishRemove(id))
    requires more[|moreSteps|] == Next(states[|steps|], FinishRemove(id))
    ensures FinishesUnaided(states, steps, more, moreSteps, id)
  {
  }

  /** A cancelled subscription's channel can still be closed with no one reading it, short of closing
      the client, exactly when the events its pumps are about to send fit into the channel. */
  lemma RemovalFinishesUnaidedIff(states: seq<State>, steps: seq<Step>, id: nat)
    requires IsRun(states, steps) && Removing(states[|steps|], id)
    ensures (exists more, moreSteps :: FinishesUnaided(states, steps, more, moreSteps, id))
              <==> !Overcommitted(states[|steps|], id)
  {
    if !Overcommitted(states[|steps|], id) {
      var more, moreSteps := RemovalCanFinish(states, steps, id);
    } else if more, moreSteps :| FinishesUnaided(states, steps, more, moreSteps, id) {
      assert more[|steps|] == states[|steps|];
      OvercommittedForever(more, moreSteps, |steps|, |moreSteps|, id);
    }
  }

  // ---------------------------------------------------------------- what Close leaves open

  /** Every subscription still wanted is registered, or was closed by the sweep. */
  ghost predicate SweepInv(s: State) {
    && Sized(s)
    && s.swept !! s.client.registered
    && (s.closer != Finished ==> s.swept == {} && s.sweptAt == 0)
    && s.sweptAt <= |s.client.entries|
    && (forall id | id in s.swept :: id < s.sweptAt)
    && (forall id | id in s.client.registered :: s.sweptAt <= id < |s.client.entries|)
    && forall id | 0 <= id < |s.client.entries| :: WantedOk(s, id)
  }

  ghost predicate WantedOk(s: State, id: nat)
    requires Sized(s) && id < |s.client.entries|
  {
    s.subscribers[id].phase != Failed && s.subscribers[id].remover == NotStarted ==>
      id in s.client.registered || id in s.swept
  }

  ghost predicate SweptClosed(s: State) {
    forall id | id in s.swept :: id < |s.client.entries| && s.client.entries[id].closes == 1
  }

  lemma SweepKept(s: State, step: Step)
    requires SweepInv(s) && CloserOk(s) && Enabled(s, step)
    ensures SweepInv(Next(s, step))
  {
    forall id | 0 <= id < |Next(s, step).client.entries| ensures Sized(Next(s, step)) && WantedOk(Next(s, step), id) {
      WantedKept(s, step, id);
    }
  }

  lemma WantedKept(s: State, step: Step, id: nat)
    requires SweepInv(s) && Enabled(s, step) && id < |Next(s, step).client.entries|
    ensures Sized(Next(s, step)) && WantedOk(Next(s, step), id)
  {
    assert id < |s.client.entries| ==> WantedOk(s, id);
  }

  lemma SweptStayClosed(s: State, step: Step)
    requires ClosingInv(s) && SweepInv(s) && SweptClosed(s) && Enabled(s, step)
    ensures SweptClosed(Next(s, step))
  {
    forall id | id in s.swept ensures EntryOk(s, id) {
    }
    forall id | id in s.client.registered ensures EntryOk(s, id) {
    }
  }

  lemma {:induction false} SweepHolds(states: seq<State>, steps: seq<Step>, n: nat)
    requires IsRun(states, steps) && n < |states|
    ensures SweepInv(states[n]) && SweptClosed(states[n])
  {
    if n > 0 {
      SweepHolds(states, steps, n - 1);
      ClosingHolds(states, steps, n - 1);
      SweepKept(states[n - 1], steps[n - 1]);
      SweptStayClosed(states[n - 1], steps[n - 1]);
    }
  }

  /** After Close returned, the channel of a subscription whose context still runs is closed exactly
      when it was registered before the sweep. */
  lemma ClosedBySweepIff(states: seq<State>, steps: seq<Step>, n: nat, id: nat)
    requires IsRun(states, steps) && n < |states| && states[n].closer == Finished
    requires id < |states[n].client.entries| && Sized(states[n])
    requires states[n].subscribers[id] == Subscriber(Returned, NotStarted)
    ensures states[n].client.entries[id].closes == 1 <==> id < states[n].sweptAt
    ensures states[n].client.entries[id].closes == 1 <==> id in states[n].swept
  {
    ClosingHolds(states, steps, n);
    SweepHolds(states, steps, n);
    assert EntryOk(states[n], id) && WantedOk(states[n], id);
  }

  /** A channel is closed when its removal has ended, or when the sweep met it. */
  ghost predicate ClosedFor(s: State, id: nat)
    requires Sized(s) && id < |s.client.entries|
  {
    s.client.entries[id].closes == 1 <==> s.subscribers[id].remover == Ended || id in s.swept
  }

  lemma ClosedForKept(s: State, step: Step, id: nat)
    requires Enabled(s, step) && (s.closer != Finished ==> s.swept == {})
    requires id < |s.client.entries| ==> EntryOk(s, id) && WantedOk(s, id) && ClosedFor(s, id)
    requires id < |Next(s, step).client.entries| && Sized(Next(s, step))
    requires id >= |s.client.entries| ==> id !in s.swept
    ensures ClosedFor(Next(s, step), id)
  {
  }

  /** In every run, whatever closes meet: a subscription's channel is closed exactly when its removal has
      ended or Close's sweep found it registered; until then it is open. */
  lemma {:induction false} ChannelClosedIff(states: seq<State>, steps: seq<Step>, n: nat, id: nat)
    requires IsRun(states, steps) && n < |states| && id < |states[n].client.entries|
    ensures Sized(states[n])
    ensures states[n].client.entries[id].closes ==
              if states[n].subscribers[id].remover == Ended || id in states[n].swept then 1 else 0
  {
    ClosingHolds(states, steps, n);
    assert EntryOk(states[n], id);
    if n > 0 {
      assert Moves(states[n - 1], steps[n - 1], states[n]);
      ClosingHolds(states, steps, n - 1);
      SweepHolds(states, steps, n - 1);
      if id < |states[n - 1].client.entries| {
        ChannelClosedIff(states, steps, n - 1, id);
        assert EntryOk(states[n - 1], id) && WantedOk(states[n - 1], id);
      }
      ClosedForKept(states[n - 1], steps[n - 1], id);
    }
  }

  /** Once the client is closed every new subscription uses up a closed check passed before that. */
  lemma {:induction false} LateRegistersWereChecked(states: seq<State>, steps: seq<Step>, m: nat, n: nat)
    requires IsRun(states, steps) && m <= n < |states| && states[m].client.closed
    ensures states[n].client.closed
    ensures |states[n].client.entries| + states[n].checked == |states[m].client.entries| + states[m].checked
  {
    if m < n {
      LateRegistersWereChecked(states, steps, m, n - 1);
      assert Moves(states[n - 1], steps[n - 1], states[n]);
    }
  }

  /** A Subscribe that passed its closed check before Close began can register after the sweep. */
  lemma LateSubscribeStaysOpen() returns (states: seq<State>, steps: seq<Step>)
    ensures IsRun(states, steps)
    ensures states[|steps|].closer == Finished
    ensures states[|steps|].subscribers == [Subscriber(Returned, NotStarted)]
    ensures states[|steps|].client.entries == [Entry(0, 0, 0)] && 0 in states[|steps|].client.registered
  {
    var none := Client(false, false, {}, [], 0);
    var shut := Client(true, true, {}, [], 0);
    states, steps := [EMPTY], [];
    states, steps := Grow(states, steps, CheckOpen, EMPTY.(checked := 1));
    states, steps := Grow(states, steps, BeginClose,
      State(none.(closed := true), [], [], [], [], 0, Closing, 1, {}, 0));
    states, steps := Grow(states, steps, CloseChannel, State(shut, [], [], [], [], 0, Waiting, 1, {}, 0));
    states, steps := Grow(states, steps, Drain, State(shut, [], [], [], [], 0, Drained, 1, {}, 0));
    states, steps := Grow(states, steps, Sweep, State(shut, [], [], [], [], 0, Finished, 1, {}, 0));
    var late := Client(true, true, {0}, [Entry(0, 0, 0)], 0);
    states, steps := Grow(states, steps, Register(false),
      State(late, [Subscriber(NoConn, NotStarted)], [[]], [0], [], 0, Finished, 0, {}, 0));
    states, steps := Grow(states, steps, Return(0),
      State(late, [Subscriber(Returned, NotStarted)], [[]], [0], [], 0, Finished, 0, {}, 0));
  }

  // ---------------------------------------------------------------- generations

  ghost predicate GenerationOk(s: State, p: nat) {
    PumpInRange(s, p) && 1 <= s.pumps[p].generation <= s.client.entries[s.pumps[p].entry].generation
  }

  ghost predicate GenerationsInv(s: State) {
    && (forall p | 0 <= p < |s.pumps| :: GenerationOk(s, p))
    && Ascending(s.pumps)
  }

  /** Of two pumps of one entry the later one has the larger generation. */
  ghost predicate Ascending(pumps: seq<Pump>) {
    forall p, q | 0 <= p < q < |pumps| && pumps[p].entry == pumps[q].entry ::
      pumps[p].generation < pumps[q].generation
  }

  predicate SameOrigin(a: Pump, b: Pump) {
    a.entry == b.entry && a.generation == b.generation
  }

  lemma GenerationKept(s: State, step: Step, p: nat)
    requires Enabled(s, step) && p < |Next(s, step).pumps|
    requires p < |s.pumps| ==> GenerationOk(s, p)
    ensures GenerationOk(Next(s, step), p)
    ensures p < |s.pumps| ==> SameOrigin(Next(s, step).pumps[p], s.pumps[p])
    ensures p >= |s.pumps| ==> p == |s.pumps| && step.Attach?
    ensures p >= |s.pumps| ==> SameOrigin(Next(s, step).pumps[p], NewPump(s.client, step.id, step.conn))
  {
  }

  lemma GenerationsKept(s: State, step: Step)
    requires GenerationsInv(s) && Enabled(s, step)
    ensures GenerationsInv(Next(s, step))
  {
    var t := Next(s, step);
    forall p | 0 <= p < |t.pumps| ensures GenerationOk(t, p) {
      GenerationKept(s, step, p);
    }
    forall p, q | 0 <= p < q < |t.pumps| && t.pumps[p].entry == t.pumps[q].entry
      ensures t.pumps[p].generation < t.pumps[q].generation
    {
      GenerationKept(s, step, p);
      GenerationKept(s, step, q);
      assert GenerationOk(s, p);
    }
  }

  /** What a pump has received, against what it has forwarded. */
  ghost predicate TrafficOk(pump: Pump) {
    match pump.pc
    case Selecting => pump.forwarded == pump.received
    case Got(event) => pump.received == pump.forwarded + [event]
    case Sending(event) => pump.received == pump.forwarded + [event]
    case _ => pump.forwarded <= pump.received && |pump.received| <= |pump.forwarded| + 1
  }

  /** A superseded pump forwards one more event at most: the one already past its check. */
  ghost predicate LateOk(s: State, p: nat) {
    PumpInRange(s, p) &&
    if Current(s, p) then s.pumps[p].late == 0
    else s.pumps[p].late + (if s.pumps[p].pc.Sending? then 1 else 0) <= 1
  }

  ghost predicate TrafficInv(s: State) {
    && GenerationsInv(s)
    && forall p | 0 <= p < |s.pumps| :: TrafficOk(s.pumps[p]) && LateOk(s, p)
  }

  lemma TrafficKept(s: State, step: Step)
    requires TrafficInv(s) && Enabled(s, step)
    ensures TrafficInv(Next(s, step))
  {
    GenerationsKept(s, step);
    var t := Next(s, step);
    forall p | 0 <= p < |t.pumps| ensures TrafficOk(t.pumps[p]) && LateOk(t, p) {
      if p < |s.pumps| {
        assert TrafficOk(s.pumps[p]) && LateOk(s, p) && GenerationOk(s, p);
      }
    }
  }

  /** The events of a channel that one pump sent. */
  function SentBy(out: Out, p: nat): seq<Event> {
    if out == [] then [] else
      var last := out[|out| - 1];
      SentBy(out[..|out| - 1], p) + if last.0 == p then [last.1] else []
  }

  ghost predicate DeliveredInv(s: State) {
    && Sized(s)
    && (forall p | 0 <= p < |s.pumps| ::
          PumpInRange(s, p) && SentBy(s.outs[s.pumps[p].entry], p) == s.pumps[p].forwarded)
    && forall id | 0 <= id < |s.outs| :: SentByPumps(s, id)
  }

  ghost predicate SentByPumps(s: State, id: nat)
    requires id < |s.outs|
  {
    forall k | 0 <= k < |s.outs[id]| :: s.outs[id][k].0 < |s.pumps| && s.pumps[s.outs[id][k].0].entry == id
  }

  lemma {:induction false} NothingSentBy(out: Out, p: nat)
    requires forall k | 0 <= k < |out| :: out[k].0 != p
    ensures SentBy(out, p) == []
  {
    if out != [] {
      NothingSentBy(out[..|out| - 1], p);
    }
  }

  lemma SentOneMore(out: Out, q: nat, event: Event, p: nat)
    ensures SentBy(out + [(q, event)], p) == SentBy(out, p) + if q == p then [event] else []
  {
    assert (out + [(q, event)])[..|out|] == out;
  }

  lemma PumpDelivers(s: State, step: Step, p: nat)
    requires DeliveredInv(s) && Enabled(s, step) && p < |Next(s, step).pumps|
    ensures var t := Next(s, step);
            Sized(t) && PumpInRange(t, p) && SentBy(t.outs[t.pumps[p].entry], p) == t.pumps[p].forwarded
  {
    if p == |s.pumps| {
      assert SentByPumps(s, Next(s, step).pumps[p].entry);
      NothingSentBy(s.outs[Next(s, step).pumps[p].entry], p);
    } else if step.Send? {
      SentOneMore(s.outs[s.pumps[step.p].entry], step.p, s.pumps[step.p].pc.event, p);
    }
  }

  lemma DeliveredKept(s: State, step: Step)
    requires DeliveredInv(s) && Enabled(s, step)
    ensures DeliveredInv(Next(s, step))
  {
    var t := Next(s, step);
    forall p | 0 <= p < |t.pumps|
      ensures PumpInRange(t, p) && SentBy(t.outs[t.pumps[p].entry], p) == t.pumps[p].forwarded
    {
      PumpDelivers(s, step, p);
    }
    forall id | 0 <= id < |t.outs| ensures SentByPumps(t, id) {
      assert id < |s.outs| ==> SentByPumps(s, id);
    }
  }

  lemma {:induction false} TrafficHolds(states: seq<State>, steps: seq<Step>, n: nat)
    requires IsRun(states, steps) && n < |states|
    ensures TrafficInv(states[n]) && DeliveredInv(states[n])
  {
    if n > 0 {
      TrafficHolds(states, steps, n - 1);
      TrafficKept(states[n - 1], steps[n - 1]);
      DeliveredKept(states[n - 1], steps[n - 1]);
    }
  }

  /** Pumps of one subscription never share a generation. */
  lemma GenerationsDiffer(states: seq<State>, steps: seq<Step>, n: nat, p: nat, q: nat)
    requires IsRun(states, steps) && n < |states| && p < q < |states[n].pumps|
    requires states[n].pumps[p].entry == states[n].pumps[q].entry
    ensures states[n].pumps[p].generation < states[n].pumps[q].generation
  {
    TrafficHolds(states, steps, n);
  }

  /** What a channel holds from one pump is a prefix of what that pump's inner channel gave it. */
  lemma ForwardsAPrefix(states: seq<State>, steps: seq<Step>, n: nat, p: nat)
    requires IsRun(states, steps) && n < |states| && p < |states[n].pumps|
    ensures states[n].pumps[p].entry < |states[n].outs|
    ensures SentBy(states[n].outs[states[n].pumps[p].entry], p) <= states[n].pumps[p].received
    ensures states[n].pumps[p].pc == Selecting ==>
              SentBy(states[n].outs[states[n].pumps[p].entry], p) == states[n].pumps[p].received
  {
    TrafficHolds(states, steps, n);
    assert TrafficOk(states[n].pumps[p]);
  }

  function Tail(s: State, m: State, p: nat): int
    requires p < |s.pumps| && p < |m.pumps|
  {
    |m.pumps[p].forwarded| - |s.pumps[p].forwarded|
  }

  /** From the moment a newer generation is attached, a pump forwards one more event at most, and
      none unless it had one past its check. */
  lemma SupersededForwardsOnce(states: seq<State>, steps: seq<Step>, m: nat, n: nat, p: nat)
    requires IsRun(states, steps) && m <= n < |states| && p < |states[m].pumps|
    requires PumpInRange(states[m], p) && !Current(states[m], p)
    ensures p < |states[n].pumps| && PumpInRange(states[n], p) && !Current(states[n], p)
    ensures |states[m].pumps[p].forwarded| <= |states[n].pumps[p].forwarded|
    ensures Tail(states[m], states[n], p) <= if states[m].pumps[p].pc.Sending? then 1 else 0
  {
    SupersededLeft(states, steps, m, n, p);
  }

  lemma EntriesAge(s: State, step: Step, id: nat)
    requires Enabled(s, step) && id < |s.client.entries|
    ensures id < |Next(s, step).client.entries|
    ensures s.client.entries[id].generation <= Next(s, step).client.entries[id].generation
  {
  }

  lemma PumpAfter(s: State, step: Step, p: nat)
    requires Enabled(s, step) && PumpInRange(s, p)
    ensures var t := Next(s, step);
      && p < |t.pumps| && t.pumps[p].entry == s.pumps[p].entry && t.pumps[p].generation == s.pumps[p].generation
      && (step == Send(p) ==> Tail(s, t, p) == 1 && s.pumps[p].pc.Sending? && !t.pumps[p].pc.Sending?)
      && (step != Send(p) ==> Tail(s, t, p) == 0)
      && (step != Send(p) && t.pumps[p].pc.Sending? ==> s.pumps[p].pc.Sending? || Current(s, p))
  {
  }

  lemma SupersededStep(s: State, step: Step, p: nat)
    requires Enabled(s, step) && PumpInRange(s, p) && !Current(s, p)
    requires s.pumps[p].generation <= s.client.entries[s.pumps[p].entry].generation
    ensures var t := Next(s, step);
      && PumpInRange(t, p) && !Current(t, p)
      && Tail(s, t, p) >= 0
      && Tail(s, t, p) + (if t.pumps[p].pc.Sending? then 1 else 0) <= if s.pumps[p].pc.Sending? then 1 else 0
  {
    EntriesAge(s, step, s.pumps[p].entry);
    PumpAfter(s, step, p);
  }

  lemma {:induction false} SupersededLeft(states: seq<State>, steps: seq<Step>, m: nat, n: nat, p: nat)
    requires IsRun(states, steps) && m <= n < |states|
    requires PumpInRange(states[m], p) && !Current(states[m], p)
    ensures PumpInRange(states[n], p) && !Current(states[n], p)
    ensures Tail(states[m], states[n], p) >= 0
    ensures Tail(states[m], states[n], p) + (if states[n].pumps[p].pc.Sending? then 1 else 0)
              <= if states[m].pumps[p].pc.Sending? then 1 else 0
  {
    if m < n {
      SupersededLeft(states, steps, m, n - 1, p);
      GenerationBounded(states, steps, n - 1, p);
      SupersededStep(states[n - 1], steps[n - 1], p);
    }
  }

  lemma GenerationBounded(states: seq<State>, steps: seq<Step>, n: nat, p: nat)
    requires IsRun(states, steps) && n < |states| && PumpInRange(states[n], p)
    ensures states[n].pumps[p].generation <= states[n].client.entries[states[n].pumps[p].entry].generation
  {
    TrafficHolds(states, steps, n);
    assert GenerationOk(states[n], p);
  }

  ghost predicate Delivers(states: seq<State>, steps: seq<Step>, more: seq<State>, moreSteps: seq<Step>, p: nat) {
    && GoesOn(states, steps, more, moreSteps)
    && p < |states[|steps|].pumps| && p < |more[|moreSteps|].pumps|
    && Tail(states[|steps|], more[|moreSteps|], p) > 0
  }

  /** In any run a superseded pump has some continuation in which it still delivers exactly when it is
      past its staleness check. */
  lemma SupersededDeliversIff(states: seq<State>, steps: seq<Step>, p: nat)
    requires IsRun(states, steps) && PumpInRange(states[|steps|], p) && !Current(states[|steps|], p)
    ensures (exists more, moreSteps :: Delivers(states, steps, more, moreSteps, p))
              <==> states[|steps|].pumps[p].pc.Sending?
  {
    if states[|steps|].pumps[p].pc.Sending? {
      var more, moreSteps := SupersededSends(states, steps, p);
    }
    if more, moreSteps :| Delivers(states, steps, more, moreSteps, p) {
      assert more[|steps|] == states[|steps|];
      SupersededForwardsOnce(more, moreSteps, |steps|, |moreSteps|, p);
    }
  }

  /** The event in hand is delivered late by the very next step, or, when the channel is full, by the
      step after the reader takes one event. */
  lemma SupersededSends(states: seq<State>, steps: seq<Step>, p: nat) returns (more: seq<State>, moreSteps: seq<Step>)
    requires IsRun(states, steps) && PumpInRange(states[|steps|], p) && !Current(states[|steps|], p)
    requires states[|steps|].pumps[p].pc.Sending?
    ensures Delivers(states, steps, more, moreSteps, p)
    ensures moreSteps == steps + [Send(p)] || moreSteps == steps + [Take(states[|steps|].pumps[p].entry), Send(p)]
    ensures Sized(states[|steps|])
    ensures HasRoom(states[|steps|], states[|steps|].pumps[p].entry) ==> moreSteps == steps + [Send(p)]
    ensures more[|moreSteps|].pumps[p].late == states[|steps|].pumps[p].late + 1
  {
    ChannelHolds(states, steps, |steps|);
    var s := states[|steps|];
    var id := s.pumps[p].entry;
    if HasRoom(s, id) {
      more, moreSteps := Continue(states, steps, Send(p));
    } else {
      var taken, takenSteps := Continue(states, steps, Take(id));
      more, moreSteps := Continue(taken, takenSteps, Send(p));
      assert moreSteps == steps + [Take(id), Send(p)];
    }
  }

  function OnlyEntry(generation: nat, out: Out, pumps: seq<Pump>): State {
    State(Client(false, false, {0}, [Entry(generation, generation, 0)], generation),
      [Subscriber(Attached, NotStarted)], [out], [0], pumps, 1, Open, 0, {}, 0)
  }

  lemma FirstPump() returns (states: seq<State>, steps: seq<Step>)
    ensures IsRun(states, steps)
    ensures states[|steps|] == OnlyEntry(1, [], [Pump(0, 1, 1, Selecting, [], [], 0)])
  {
    states, steps := [EMPTY], [];
    states, steps := Grow(states, steps, Reconnect, EMPTY.(conn := 1));
    states, steps := Grow(states, steps, CheckOpen, EMPTY.(conn := 1, checked := 1));
    states, steps := Grow(states, steps, Register(true),
      State(Client(false, false, {0}, [Entry(0, 0, 0)], 0),
        [Subscriber(Attaching, NotStarted)], [[]], [0], [], 1, Open, 0, {}, 0));
    states, steps := Grow(states, steps, Attach(0, true, 1), OnlyEntry(1, [], [Pump(0, 1, 1, Selecting, [], [], 0)]));
  }

  /** One subscription, its first pump holding an event past its staleness check. */
  lemma FirstPumpSending(e: Event) returns (states: seq<State>, steps: seq<Step>)
    ensures IsRun(states, steps)
    ensures states[|steps|] == OnlyEntry(1, [], [Pump(0, 1, 1, Sending(e), [e], [], 0)])
  {
    var nothing: seq<Event> := [];
    assert nothing + [e] == [e];
    states, steps := FirstPump();
    states, steps := Grow(states, steps, Receive(0, e), OnlyEntry(1, [], [Pump(0, 1, 1, Got(e), [e], [], 0)]));
    states, steps := Grow(states, steps, Check(0), OnlyEntry(1, [], [Pump(0, 1, 1, Sending(e), [e], [], 0)]));
  }

  lemma BothPumpsSending(e: Event, f: Event) returns (states: seq<State>, steps: seq<Step>)
    ensures IsRun(states, steps)
    ensures states[|steps|] ==
              OnlyEntry(2, [], [Pump(0, 1, 1, Sending(e), [e], [], 0), Pump(0, 2, 1, Sending(f), [f], [], 0)])
  {
    var nothing: seq<Event> := [];
    assert nothing + [f] == [f];
    var older := Pump(0, 1, 1, Sending(e), [e], [], 0);
    states, steps := FirstPumpSending(e);
    states, steps := Grow(states, steps, Attach(0, false, 1),
      OnlyEntry(2, [], [older, Pump(0, 2, 1, Selecting, [], [], 0)]));
    states, steps := Grow(states, steps, Receive(1, f), OnlyEntry(2, [], [older, Pump(0, 2, 1, Got(f), [f], [], 0)]));
    states, steps := Grow(states, steps, Check(1), OnlyEntry(2, [], [older, Pump(0, 2, 1, Sending(f), [f], [], 0)]));
  }

  /** Two generations can both deliver: an older pump past its check sends after a newer one has. */
  lemma OlderGenerationDelivers(e: Event, f: Event) returns (states: seq<State>, steps: seq<Step>)
    ensures IsRun(states, steps)
    ensures states[|steps|].outs == [[(1, f), (0, e)]]
    ensures |states[|steps|].pumps| == 2 && states[|steps|].pumps[0].generation < states[|steps|].pumps[1].generation
    ensures states[|steps|].pumps[0].late == 1
  {
    var nothing: seq<Event> := [];
    assert nothing + [e] == [e] && nothing + [f] == [f];
    var silence: Out := [];
    assert silence + [(1, f)] == [(1, f)] && [(1, f)] + [(0, e)] == [(1, f), (0, e)];
    var older := Pump(0, 1, 1, Sending(e), [e], [], 0);
    states, steps := BothPumpsSending(e, f);
    states, steps := Grow(states, steps, Send(1),
      OnlyEntry(2, [(1, f)], [older, Pump(0, 2, 1, Selecting, [f], [f], 0)]));
    states, steps := Grow(states, steps, Send(0),
      OnlyEntry(2, [(1, f), (0, e)], [Pump(0, 1, 1, Selecting, [e], [e], 1), Pump(0, 2, 1, Selecting, [f], [f], 0)]));
  }

  // ---------------------------------------------------------------- which connection the current pump reads

  /** No pump of an entry reads a newer connection than the entry's current one. */
  ghost predicate OnNewest(s: State) {
    forall p, q | 0 <= p < |s.pumps| && 0 <= q < |s.pumps| && s.pumps[p].entry == s.pumps[q].entry ::
      PumpInRange(s, p) && Current(s, p) ==> s.pumps[q].conn <= s.pumps[p].conn
  }

  /** The attach does not come behind one on a newer connection. */
  ghost predicate InConnOrder(s: State, step: Step) {
    step.Attach? ==> forall q | 0 <= q < |s.pumps| && s.pumps[q].entry == step.id :: s.pumps[q].conn <= step.conn
  }

  lemma AttachOnNewest(s: State, step: Step)
    requires GenerationsInv(s) && OnNewest(s) && Enabled(s, step) && step.Attach? && InConnOrder(s, step)
    ensures OnNewest(Next(s, step))
  {
    var t := Next(s, step);
    forall p, q | 0 <= p < |t.pumps| && 0 <= q < |t.pumps| && t.pumps[p].entry == t.pumps[q].entry
      ensures PumpInRange(t, p) && Current(t, p) ==> t.pumps[q].conn <= t.pumps[p].conn
    {
      assert p < |s.pumps| ==> GenerationOk(s, p) && t.pumps[p] == s.pumps[p];
      assert q < |s.pumps| ==> t.pumps[q] == s.pumps[q];
    }
  }

  lemma OtherStepOnNewest(s: State, step: Step)
    requires GenerationsInv(s) && OnNewest(s) && Enabled(s, step) && !step.Attach?
    ensures OnNewest(Next(s, step))
  {
    var t := Next(s, step);
    forall p, q | 0 <= p < |t.pumps| && 0 <= q < |t.pumps| && t.pumps[p].entry == t.pumps[q].entry
      ensures PumpInRange(t, p) && Current(t, p) ==> t.pumps[q].conn <= t.pumps[p].conn
    {
      ReaderStays(s, step, p);
      ReaderStays(s, step, q);
    }
  }

  predicate SameReader(s: State, t: State, p: nat) {
    && PumpInRange(s, p) && PumpInRange(t, p)
    && t.pumps[p].entry == s.pumps[p].entry && t.pumps[p].conn == s.pumps[p].conn
    && (Current(t, p) <==> Current(s, p))
  }

  lemma ReaderStays(s: State, step: Step, p: nat)
    requires GenerationsInv(s) && Enabled(s, step) && !step.Attach? && p < |Next(s, step).pumps|
    ensures SameReader(s, Next(s, step), p)
  {
    assert GenerationOk(s, p);
  }

  /** Every step keeps the current pump on the newest connection its entry was attached to, except
      exactly an attach that reaches its section behind one on a newer connection. */
  lemma StepKeepsNewestIff(s: State, step: Step)
    requires GenerationsInv(s) && OnNewest(s) && Enabled(s, step)
    ensures OnNewest(Next(s, step)) <==> InConnOrder(s, step)
  {
    var t := Next(s, step);
    if !step.Attach? {
      OtherStepOnNewest(s, step);
    } else if InConnOrder(s, step) {
      AttachOnNewest(s, step);
    } else {
      var q :| 0 <= q < |s.pumps| && s.pumps[q].entry == step.id && s.pumps[q].conn > step.conn;
      var p := |s.pumps|;
      assert t.pumps[p].entry == step.id && t.pumps[q] == s.pumps[q] && Current(t, p);
    }
  }

  ghost predicate NewestUpTo(states: seq<State>, n: nat)
    requires n < |states|
  {
    forall k | 0 <= k <= n :: OnNewest(states[k])
  }

  ghost predicate OrderedUpTo(states: seq<State>, steps: seq<Step>, n: nat)
    requires n <= |steps| < |states|
  {
    forall k | 0 <= k < n :: InConnOrder(states[k], steps[k])
  }

  /** A run has every current pump on its entry's newest connection throughout exactly when the attaches
      of each entry reach their section in the order of the connections they read. */
  lemma {:induction false} CurrentOnNewestIff(states: seq<State>, steps: seq<Step>, n: nat)
    requires IsRun(states, steps) && n < |states|
    ensures NewestUpTo(states, n) <==> OrderedUpTo(states, steps, n)
  {
    if n > 0 {
      CurrentOnNewestIff(states, steps, n - 1);
      assert NewestUpTo(states, n) <==> NewestUpTo(states, n - 1) && OnNewest(states[n]);
      assert OrderedUpTo(states, steps, n) <==>
             OrderedUpTo(states, steps, n - 1) && InConnOrder(states[n - 1], steps[n - 1]);
      if NewestUpTo(states, n - 1) {
        RunStepNewest(states, steps, n);
      }
    }
  }

  lemma RunStepNewest(states: seq<State>, steps: seq<Step>, n: nat)
    requires IsRun(states, steps) && 0 < n < |states| && OnNewest(states[n - 1])
    ensures OnNewest(states[n]) <==> InConnOrder(states[n - 1], steps[n - 1])
  {
    TrafficHolds(states, steps, n - 1);
    assert Moves(states[n - 1], steps[n - 1], states[n]);
    StepKeepsNewestIff(states[n - 1], steps[n - 1]);
  }

  /** One subscription on the second of two connections. */
  function TwoConns(generation: nat, wg: int, live: int, phase: Phase, pumps: seq<Pump>): State {
    State(Client(false, false, {0}, [Entry(generation, wg, 0)], live),
      [Subscriber(phase, NotStarted)], [[]], [0], pumps, 2, Open, 0, {}, 0)
  }

  /** A Subscribe that read the first connection attaches behind the reconnect's own attach. */
  lemma LateAttach() returns (states: seq<State>, steps: seq<Step>)
    ensures IsRun(states, steps)
    ensures states[|steps|] == TwoConns(2, 2, 2, Attached,
      [Pump(0, 1, 2, Selecting, [], [], 0), Pump(0, 2, 1, Selecting, [], [], 0)])
    ensures steps == [Reconnect, CheckOpen, Register(true), Reconnect, Attach(0, false, 2), Attach(0, true, 1)]
  {
    states, steps := [EMPTY], [];
    states, steps := Grow(states, steps, Reconnect, EMPTY.(conn := 1));
    states, steps := Grow(states, steps, CheckOpen, EMPTY.(conn := 1, checked := 1));
    states, steps := Grow(states, steps, Register(true),
      State(Client(false, false, {0}, [Entry(0, 0, 0)], 0),
        [Subscriber(Attaching, NotStarted)], [[]], [0], [], 1, Open, 0, {}, 0));
    states, steps := Grow(states, steps, Reconnect, TwoConns(0, 0, 0, Attaching, []));
    states, steps := Grow(states, steps, Attach(0, false, 2),
      TwoConns(1, 1, 1, Attaching, [Pump(0, 1, 2, Selecting, [], [], 0)]));
    states, steps := Grow(states, steps, Attach(0, true, 1),
      TwoConns(2, 2, 2, Attached, [Pump(0, 1, 2, Selecting, [], [], 0), Pump(0, 2, 1, Selecting, [], [], 0)]));
  }

  /** It goes silent: the pump on the live connection drops the next event as superseded, the current
      pump's connection is gone, and the subscription stays registered and open with no pump. */
  lemma SubscriptionGoesSilent(e: Event) returns (states: seq<State>, steps: seq<Step>)
    ensures IsRun(states, steps)
    ensures states[|steps|] == TwoConns(2, 0, 0, Returned,
      [Pump(0, 1, 2, Dead, [e], [], 0), Pump(0, 2, 1, Dead, [], [], 0)])
  {
    var nothing: seq<Event> := [];
    assert nothing + [e] == [e];
    states, steps := NewerPumpDrops(e);
    var dropped := Pump(0, 1, 2, Leaving, [e], [], 0);
    states, steps := Grow(states, steps, LeaveEntry(0),
      TwoConns(2, 1, 2, Returned, [dropped.(pc := Left), Pump(0, 2, 1, Leaving, [], [], 0)]));
    states, steps := Grow(states, steps, LeaveClient(0),
      TwoConns(2, 1, 1, Returned, [dropped.(pc := Dead), Pump(0, 2, 1, Leaving, [], [], 0)]));
    states, steps := Grow(states, steps, LeaveEntry(1),
      TwoConns(2, 0, 1, Returned, [dropped.(pc := Dead), Pump(0, 2, 1, Left, [], [], 0)]));
    states, steps := Grow(states, steps, LeaveClient(1),
      TwoConns(2, 0, 0, Returned, [dropped.(pc := Dead), Pump(0, 2, 1, Dead, [], [], 0)]));
  }

  lemma NewerPumpDrops(e: Event) returns (states: seq<State>, steps: seq<Step>)
    ensures IsRun(states, steps)
    ensures states[|steps|] == TwoConns(2, 2, 2, Returned,
      [Pump(0, 1, 2, Leaving, [e], [], 0), Pump(0, 2, 1, Leaving, [], [], 0)])
  {
    var nothing: seq<Event> := [];
    assert nothing + [e] == [e];
    var older := Pump(0, 2, 1, Selecting, [], [], 0);
    states, steps := LateAttach();
    states, steps := Grow(states, steps, Return(0),
      TwoConns(2, 2, 2, Returned, [Pump(0, 1, 2, Selecting, [], [], 0), older]));
    states, steps := Grow(states, steps, Receive(0, e),
      TwoConns(2, 2, 2, Returned, [Pump(0, 1, 2, Got(e), [e], [], 0), older]));
    states, steps := Grow(states, steps, Check(0),
      TwoConns(2, 2, 2, Returned, [Pump(0, 1, 2, Leaving, [e], [], 0), older]));
    states, steps := Grow(states, steps, InnerEnds(1),
      TwoConns(2, 2, 2, Returned, [Pump(0, 1, 2, Leaving, [e], [], 0), older.(pc := Leaving)]));
  }

  // ---------------------------------------------------------------- a full channel

  function Copies(k: nat, e: Event): (events: seq<Event>)
    ensures |events| == k
  {
    seq(k, _ => e)
  }

  function FromFirst(k: nat, e: Event): (out: Out)
    ensures |out| == k
  {
    seq(k, _ => (0, e))
  }

  /** One pump has sent k events that no one has read. */
  lemma {:induction false} Filled(k: nat, e: Event) returns (states: seq<State>, steps: seq<Step>)
    requires k <= CAPACITY
    ensures IsRun(states, steps)
    ensures states[|steps|] == OnlyEntry(1, FromFirst(k, e), [Pump(0, 1, 1, Selecting, Copies(k, e), Copies(k, e), 0)])
  {
    if k == 0 {
      states, steps := FirstPump();
      assert FromFirst(0, e) == [] && Copies(0, e) == [];
    } else {
      var before, out := Copies(k - 1, e), FromFirst(k - 1, e);
      states, steps := Filled(k - 1, e);
      assert Copies(k, e) == before + [e] && FromFirst(k, e) == out + [(0, e)];
      states, steps := Grow(states, steps, Receive(0, e),
        OnlyEntry(1, out, [Pump(0, 1, 1, Got(e), before + [e], before, 0)]));
      states, steps := Grow(states, steps, Check(0),
        OnlyEntry(1, out, [Pump(0, 1, 1, Sending(e), before + [e], before, 0)]));
      states, steps := Grow(states, steps, Send(0),
        OnlyEntry(1, out + [(0, e)], [Pump(0, 1, 1, Selecting, before + [e], before + [e], 0)]));
    }
  }

  /** A run to a removal that cannot finish unaided: the channel is full, one more event is past its
      check, and the subscriber's context ends without its reading on. */
  lemma RemovalGetsStuck(e: Event) returns (states: seq<State>, steps: seq<Step>)
    ensures IsRun(states, steps) && Removing(states[|steps|], 0) && Overcommitted(states[|steps|], 0)
    ensures |states[|steps|].outs| == 1 && |states[|steps|].outs[0]| == 64 && states[|steps|].taken == [0]
  {
    var full, out := Copies(CAPACITY, e), FromFirst(CAPACITY, e);
    states, steps := Filled(CAPACITY, e);
    states, steps := Grow(states, steps, Receive(0, e),
      OnlyEntry(1, out, [Pump(0, 1, 1, Got(e), full + [e], full, 0)]));
    states, steps := Grow(states, steps, Check(0),
      OnlyEntry(1, out, [Pump(0, 1, 1, Sending(e), full + [e], full, 0)]));
    var s := states[|steps|];
    states, steps := Grow(states, steps, Return(0), s.(subscribers := [Subscriber(Returned, NotStarted)]));
    states, steps := Grow(states, steps, BeginRemove(0),
      s.(subscribers := [Subscriber(Returned, Draining)], client := s.client.(registered := {})));
    assert CommittedTo(states[|steps|], 0) == {0};
  }
}
