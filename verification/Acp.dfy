/** The ACP agent's sessions and turn cancellation: session/new with oldest-first eviction,
    session/cancel, session/close, and the way a prompt brackets its turn.

    A step is one section under the agent's mutex, the taking or giving up of the turn mutex, or
    one call of a cancel function. A session object lives on after its session is gone, held by
    the prompts that looked it up. */
module Acp {
  import opened Wrappers

  type Sid = string

  /** What the mutex guards: the map, the creation order, and the cancel field of every session
      object ever made, named by its place in the order of making. */
  datatype Registry = Registry(sessions: map<Sid, nat>, order: seq<Sid>, cancels: seq<Option<nat>>)

  /** Where a prompt is: after its lookup, holding the turn mutex, its cancel stored, cleared again,
      its own context cancelled, the turn mutex given up. */
  datatype Phase = Waiting | Holding | Running | Cleared | Cancelled | Done

  datatype Turn = Turn(session: nat, phase: Phase)

  /** A cancel function read for a session, to be called outside the mutex. */
  datatype Capture = Capture(sid: Sid, turn: nat)

  datatype State = State(
    reg: Registry, names: seq<Sid>, turns: seq<Turn>, holder: Option<nat>,
    captured: set<Capture>, called: set<Capture>, cancelled: set<nat>)

  const EMPTY := State(Registry(map[], [], []), [], [], None, {}, {}, {})

  // ---------------------------------------------------------------- the registry

  ghost predicate WellFormed(reg: Registry) {
    forall sid | sid in reg.sessions :: reg.sessions[sid] < |reg.cancels|
  }

  function Registered(reg: Registry, sid: Sid): Registry {
    Registry(reg.sessions[sid := |reg.cancels|], reg.order + [sid], reg.cancels + [None])
  }

  /** How many of the oldest sessions the limit pushes out. */
  function Excess(reg: Registry, maxSessions: int): int {
    if |reg.order| > maxSessions then |reg.order| - maxSessions else 0
  }

  function Members(sids: seq<Sid>): set<Sid> {
    set sid | sid in sids
  }

  function DropOldest(reg: Registry, n: nat): Registry
    requires n <= |reg.order|
  {
    Registry(reg.sessions - Members(reg.order[..n]), reg.order[n..], reg.cancels)
  }

  /** The cancel function a session holds; none for an unknown session. */
  function HeldBy(reg: Registry, sid: Sid): Option<nat>
    requires WellFormed(reg)
  {
    if sid in reg.sessions then reg.cancels[reg.sessions[sid]] else None
  }

  function Taken(reg: Registry, sid: Sid): seq<Capture>
    requires WellFormed(reg)
  {
    var held := HeldBy(reg, sid);
    if held.Some? then [Capture(sid, held.value)] else []
  }

  function Without(reg: Registry, sid: Sid): (r: Registry)
    ensures WellFormed(reg) ==> WellFormed(r)
  {
    reg.(sessions := reg.sessions - {sid})
  }

  /** The cancel functions taken when the sessions of a list are deleted one after another. */
  function TakenFrom(reg: Registry, sids: seq<Sid>): seq<Capture>
    requires WellFormed(reg)
    decreases |sids|
  {
    if sids == [] then [] else Taken(reg, sids[0]) + TakenFrom(Without(reg, sids[0]), sids[1..])
  }

  function WithoutOldest(reg: Registry): Registry
    requires reg.order != []
  {
    Without(reg, reg.order[0]).(order := reg.order[1..])
  }

  /** The oldest n sessions deleted one after another, and the turns whose cancel functions were taken. */
  function EvictOldestN(reg: Registry, n: nat): (Registry, seq<nat>)
    requires WellFormed(reg) && n <= |reg.order|
    decreases n
  {
    if n == 0 then (reg, []) else Then(Turns(Taken(reg, reg.order[0])), EvictOldestN(WithoutOldest(reg), n - 1))
  }

  function Then(cancels: seq<nat>, rest: (Registry, seq<nat>)): (Registry, seq<nat>) {
    (rest.0, cancels + rest.1)
  }

  function RemoveFirst(order: seq<Sid>, sid: Sid): (r: seq<Sid>)
    decreases |order|
  {
    if order == [] then [] else if order[0] == sid then order[1..] else [order[0]] + RemoveFirst(order[1..], sid)
  }

  function Closed(reg: Registry, sid: Sid): Registry {
    Registry(reg.sessions - {sid}, RemoveFirst(reg.order, sid), reg.cancels)
  }

  // ---------------------------------------------------------------- steps

  datatype Step =
    | NewSession(sid: Sid)
    | Cancel(sid: Sid)
    | Close(sid: Sid)
    | Call(c: Capture)
    | Prompt(sid: Sid)
    | Acquire(t: nat)
    | StoreCancel(t: nat)
    | ClearCancel(t: nat)
    | CancelOwn(t: nat)
    | Release(t: nat)

  predicate At(s: State, t: nat, phase: Phase) {
    t < |s.turns| && s.turns[t].phase == phase && s.turns[t].session < |s.reg.cancels|
  }

  ghost predicate Enabled(s: State, maxSessions: int, step: Step) {
    match step
    case NewSession(_) => WellFormed(s.reg) && maxSessions >= 0
    case Cancel(_) => WellFormed(s.reg)
    case Close(_) => WellFormed(s.reg)
    case Call(c) => c in s.captured
    case Prompt(sid) => sid in s.reg.sessions
    case Acquire(t) => At(s, t, Waiting) && s.holder.None?
    case StoreCancel(t) => At(s, t, Holding)
    case ClearCancel(t) => At(s, t, Running)
    case CancelOwn(t) => At(s, t, Cleared)
    case Release(t) => At(s, t, Cancelled)
  }

  function Move(s: State, t: nat, phase: Phase): State
    requires t < |s.turns|
  {
    s.(turns := s.turns[t := s.turns[t].(phase := phase)])
  }

  function SetCancel(s: State, o: nat, cancel: Option<nat>): State
    requires o < |s.reg.cancels|
  {
    s.(reg := s.reg.(cancels := s.reg.cancels[o := cancel]))
  }

  function Capturing(s: State, reg: Registry, taken: seq<Capture>): State {
    s.(reg := reg, captured := s.captured + set c | c in taken)
  }

  function NewSessionNext(s: State, maxSessions: nat, sid: Sid): State
    requires WellFormed(s.reg)
  {
    var reg := Registered(s.reg, sid);
    var n := Excess(reg, maxSessions);
    Capturing(s, DropOldest(reg, n), TakenFrom(reg, reg.order[..n])).(names := s.names + [sid])
  }

  ghost function Next(s: State, maxSessions: int, step: Step): State
    requires Enabled(s, maxSessions, step)
  {
    match step
    case NewSession(sid) => NewSessionNext(s, maxSessions, sid)
    case Cancel(sid) => Capturing(s, s.reg, Taken(s.reg, sid))
    case Close(sid) => Capturing(s, Closed(s.reg, sid), Taken(s.reg, sid))
    case Call(c) => s.(captured := s.captured - {c}, called := s.called + {c}, cancelled := s.cancelled + {c.turn})
    case Prompt(sid) => s.(turns := s.turns + [Turn(s.reg.sessions[sid], Waiting)])
    case Acquire(t) => Move(s, t, Holding).(holder := Some(t))
    case StoreCancel(t) => Move(SetCancel(s, s.turns[t].session, Some(t)), t, Running)
    case ClearCancel(t) => Move(SetCancel(s, s.turns[t].session, None), t, Cleared)
    case CancelOwn(t) => Move(s, t, Cancelled).(cancelled := s.cancelled + {t})
    case Release(t) => Move(s, t, Done).(holder := None)
  }

  ghost predicate Moves(maxSessions: int, s: State, step: Step, t: State) {
    Enabled(s, maxSessions, step) && t == Next(s, maxSessions, step)
  }

  ghost predicate IsRun(maxSessions: int, states: seq<State>, steps: seq<Step>) {
    && |states| == |steps| + 1 && states[0] == EMPTY
    && forall n | 0 <= n < |steps| :: Moves(maxSessions, states[n], steps[n], states[n + 1])
  }

  // ---------------------------------------------------------------- the agent

  class Session {
    ghost const id: nat
    var cancel: Option<nat>

    constructor (ghost id: nat)
      ensures this.id == id && cancel == None
    {
      this.id, cancel := id, None;
    }
  }

  class Agent {
    const maxSessions: int
    var sessions: map<Sid, Session>
    var sessionOrder: seq<Sid>
    ghost var made: seq<Session>

    ghost predicate Valid()
      reads this, made
    {
      && (forall o | 0 <= o < |made| :: made[o].id == o)
      && forall sid | sid in sessions :: sessions[sid] in made
    }

    ghost function Reg(): Registry
      reads this, made
    {
      Registry(
        map sid | sid in sessions :: sessions[sid].id,
        sessionOrder,
        seq(|made|, o requires 0 <= o < |made| reads this, made => made[o].cancel))
    }

    constructor (maxSessions: int)
      ensures Valid() && this.maxSessions == maxSessions && Reg() == EMPTY.reg
    {
      this.maxSessions := maxSessions;
      sessions, sessionOrder, made := map[], [], [];
    }

    /** Gives the cancel functions to call once the mutex is free, or nothing when it panics. */
    method NewSession(sid: Sid) returns (evicted: Option<seq<nat>>)
      requires Valid()
      modifies this
      ensures Valid() && WellFormed(old(Reg()))
      ensures evicted.None? <==> maxSessions < 0
      ensures var reg := Registered(old(Reg()), sid);
              evicted.Some? ==>
                && Reg() == DropOldest(reg, Excess(reg, maxSessions))
                && evicted.value == Turns(TakenFrom(reg, reg.order[..Excess(reg, maxSessions)]))
    {
      Register(sid);
      ghost var reg := Reg();
      evicted := EvictExcess();
      if evicted.Some? {
        EvictOldestNIs(reg, Excess(reg, maxSessions));
      }
    }

    /** The eviction loop. */
    method EvictExcess() returns (evicted: Option<seq<nat>>)
      requires Valid() && WellFormed(Reg())
      modifies this
      ensures Valid() && (evicted.None? <==> maxSessions < 0)
      ensures evicted.Some? ==> (Reg(), evicted.value) == EvictOldestN(old(Reg()), Excess(old(Reg()), maxSessions))
    {
      ghost var reg := Reg();
      var cancels: seq<nat> := [];
      ghost var n: nat := if maxSessions < 0 then |reg.order| else Excess(reg, maxSessions);
      ghost var left: nat := n;
      assert [] + EvictOldestN(reg, n).1 == EvictOldestN(reg, n).1;
      while |sessionOrder| > maxSessions
        invariant Valid() && WellFormed(Reg()) && left == |sessionOrder| - (|reg.order| - n) <= |sessionOrder|
        invariant Then(cancels, EvictOldestN(Reg(), left)) == EvictOldestN(reg, n)
        decreases |sessionOrder|
      {
        if |sessionOrder| == 0 {
          return None;
        }
        ghost var before := Reg();
        var cancel := EvictOldest();
        ThenOneMore(cancels, before, left);
        if cancel.Some? {
          cancels := cancels + [cancel.value];
        }
        left := left - 1;
      }
      assert cancels + [] == cancels;
      return Some(cancels);
    }

    method Register(sid: Sid)
      requires Valid()
      modifies this
      ensures Valid() && WellFormed(old(Reg())) && WellFormed(Reg())
      ensures Reg() == Registered(old(Reg()), sid)
    {
      var s := new Session(|made|);
      made := made + [s];
      sessions := sessions[sid := s];
      sessionOrder := sessionOrder + [sid];
    }

    /** One turn of the eviction loop. */
    method EvictOldest() returns (cancel: Option<nat>)
      requires Valid() && |sessionOrder| > 0
      modifies this
      ensures Valid() && WellFormed(old(Reg())) && cancel == HeldBy(old(Reg()), old(sessionOrder[0]))
      ensures Reg() == WithoutOldest(old(Reg())) && WellFormed(Reg())
    {
      cancel := None;
      var oldest := sessionOrder[0];
      sessionOrder := sessionOrder[1..];
      if oldest in sessions {
        cancel := sessions[oldest].cancel;
        sessions := sessions - {oldest};
      }
    }

    method Cancel(sid: Sid) returns (cancel: Option<nat>)
      requires Valid()
      ensures WellFormed(Reg()) && cancel == HeldBy(Reg(), sid)
    {
      cancel := None;
      if sid in sessions {
        cancel := sessions[sid].cancel;
      }
    }

    method CloseSession(sid: Sid) returns (cancel: Option<nat>)
      requires Valid()
      modifies this
      ensures Valid() && WellFormed(old(Reg())) && cancel == HeldBy(old(Reg()), sid)
      ensures Reg() == Closed(old(Reg()), sid)
    {
      cancel := None;
      if sid in sessions {
        cancel := sessions[sid].cancel;
      }
      sessions := sessions - {sid};
      Splice(sid);
    }

    /** The loop that takes a closed session out of the creation order. */
    method Splice(sid: Sid)
      modifies this`sessionOrder
      ensures sessionOrder == RemoveFirst(old(sessionOrder), sid)
    {
      var i := 0;
      while i < |sessionOrder|
        invariant i <= |sessionOrder| && sessionOrder == old(sessionOrder)
        invariant RemoveFirst(sessionOrder, sid) == sessionOrder[..i] + RemoveFirst(sessionOrder[i..], sid)
      {
        assert sessionOrder[i..][0] == sessionOrder[i] && sessionOrder[i..][1..] == sessionOrder[i + 1..];
        if sessionOrder[i] == sid {
          sessionOrder := sessionOrder[..i] + sessionOrder[i + 1..];
          return;
        }
        i := i + 1;
      }
    }

    /** A prompt's lookup; an unknown session is an error. */
    method Lookup(sid: Sid) returns (s: Option<Session>)
      requires Valid()
      ensures s.Some? <==> sid in Reg().sessions
      ensures s.Some? ==> s.value in made && s.value.id == Reg().sessions[sid]
    {
      if sid in sessions {
        return Some(sessions[sid]);
      }
      return None;
    }

    /** A prompt's two sections on the session object it looked up: storing its cancel, and clearing it. */
    method Store(s: Session, cancel: Option<nat>)
      requires Valid() && s in made
      modifies s
      ensures Valid()
      ensures Reg() == old(Reg()).(cancels := old(Reg()).cancels[s.id := cancel])
    {
      s.cancel := cancel;
      assert forall o | 0 <= o < |made| :: made[o] == s <==> o == s.id;
    }
  }

  function Turns(captures: seq<Capture>): (r: seq<nat>)
    ensures |r| == |captures| && forall i | 0 <= i < |r| :: r[i] == captures[i].turn
  {
    seq(|captures|, i requires 0 <= i < |captures| => captures[i].turn)
  }

  lemma ThenOneMore(cancels: seq<nat>, reg: Registry, n: nat)
    requires WellFormed(reg) && 0 < n <= |reg.order|
    ensures var held := HeldBy(reg, reg.order[0]);
            Then(cancels, EvictOldestN(reg, n))
              == Then(if held.Some? then cancels + [held.value] else cancels, EvictOldestN(WithoutOldest(reg), n - 1))
  {
    var rest := EvictOldestN(WithoutOldest(reg), n - 1).1;
    var held := HeldBy(reg, reg.order[0]);
    if held.Some? {
      assert Turns(Taken(reg, reg.order[0])) == [held.value];
      assert cancels + ([held.value] + rest) == (cancels + [held.value]) + rest;
    } else {
      assert Turns(Taken(reg, reg.order[0])) == [] && [] + rest == rest;
    }
  }

  lemma {:induction false} OrderDoesNotMatter(a: Registry, b: Registry, sids: seq<Sid>)
    requires WellFormed(a) && a.sessions == b.sessions && a.cancels == b.cancels
    ensures TakenFrom(a, sids) == TakenFrom(b, sids)
    decreases |sids|
  {
    if sids != [] {
      OrderDoesNotMatter(Without(a, sids[0]), Without(b, sids[0]), sids[1..]);
    }
  }

  lemma DropShift(reg: Registry, n: nat)
    requires 0 < n <= |reg.order|
    ensures DropOldest(WithoutOldest(reg), n - 1) == DropOldest(reg, n)
  {
    var sids := reg.order[..n];
    assert sids[1..] == reg.order[1..][..n - 1] && sids == [sids[0]] + sids[1..];
    MembersOfTwo([sids[0]], sids[1..]);
    assert Members([sids[0]]) == {sids[0]};
    assert reg.sessions - Members(sids) == reg.sessions - {sids[0]} - Members(sids[1..]);
  }

  lemma DropNone(reg: Registry)
    ensures DropOldest(reg, 0) == reg
  {
    assert Members(reg.order[..0]) == {};
  }

  lemma {:induction false} EvictedRegistry(reg: Registry, n: nat)
    requires WellFormed(reg) && n <= |reg.order|
    ensures EvictOldestN(reg, n).0 == DropOldest(reg, n)
    decreases n
  {
    if n == 0 {
      DropNone(reg);
    } else {
      EvictedRegistry(WithoutOldest(reg), n - 1);
      DropShift(reg, n);
    }
  }

  lemma {:induction false} EvictedTurns(reg: Registry, n: nat)
    requires WellFormed(reg) && n <= |reg.order|
    ensures EvictOldestN(reg, n).1 == Turns(TakenFrom(reg, reg.order[..n]))
    decreases n
  {
    if n > 0 {
      var sids := reg.order[..n];
      var rest := WithoutOldest(reg);
      EvictedTurns(rest, n - 1);
      assert sids[1..] == rest.order[..n - 1];
      OrderDoesNotMatter(rest, Without(reg, sids[0]), sids[1..]);
      TurnsOfTwo(Taken(reg, sids[0]), TakenFrom(rest, sids[1..]));
    }
  }

  /** Evicting one by one is dropping the n oldest at once. */
  lemma EvictOldestNIs(reg: Registry, n: nat)
    requires WellFormed(reg) && n <= |reg.order|
    ensures EvictOldestN(reg, n) == (DropOldest(reg, n), Turns(TakenFrom(reg, reg.order[..n])))
  {
    EvictedRegistry(reg, n);
    EvictedTurns(reg, n);
  }

  lemma TurnsOfTwo(a: seq<Capture>, b: seq<Capture>)
    ensures Turns(a + b) == Turns(a) + Turns(b)
  {
  }

  // ---------------------------------------------------------------- the creation order

  /** The order lists the registered sessions, each once, oldest first. */
  ghost predicate Orderly(reg: Registry) {
    && WellFormed(reg)
    && Members(reg.order) == reg.sessions.Keys
    && forall i, j | 0 <= i < j < |reg.order| :: Older(reg, reg.order[i], reg.order[j])
  }

  predicate Older(reg: Registry, a: Sid, b: Sid) {
    a in reg.sessions && b in reg.sessions && reg.sessions[a] < reg.sessions[b]
  }

  ghost predicate OrderInv(reg: Registry, maxSessions: int) {
    Orderly(reg) && |reg.order| <= maxSessions
  }

  lemma RegisterOrder(reg: Registry, sid: Sid)
    requires Orderly(reg) && sid !in reg.sessions
    ensures Orderly(Registered(reg, sid))
  {
    var r := Registered(reg, sid);
    assert Members(r.order) == Members(reg.order) + {sid};
    forall i, j | 0 <= i < j < |r.order| ensures Older(r, r.order[i], r.order[j]) {
      assert r.order[i] in Members(reg.order);
      assert j < |reg.order| ==> Older(reg, reg.order[i], reg.order[j]);
    }
  }

  /** Members of an orderly registry taken from two disjoint stretches of the order differ. */
  lemma OrderSplits(reg: Registry, n: nat)
    requires Orderly(reg) && n <= |reg.order|
    ensures Members(reg.order[n..]) == reg.sessions.Keys - Members(reg.order[..n])
    ensures forall a, b | a in Members(reg.order[..n]) && b in Members(reg.order[n..]) :: Older(reg, a, b)
  {
    forall a, b | a in Members(reg.order[..n]) && b in Members(reg.order[n..]) ensures Older(reg, a, b) {
      OlderAcross(reg, n, a, b);
    }
    assert reg.order == reg.order[..n] + reg.order[n..];
    MembersOfTwo(reg.order[..n], reg.order[n..]);
    assert forall a | a in Members(reg.order[..n]) && a in Members(reg.order[n..]) :: Older(reg, a, a);
  }

  lemma OlderAcross(reg: Registry, n: nat, a: Sid, b: Sid)
    requires Orderly(reg) && n <= |reg.order|
    requires a in reg.order[..n] && b in reg.order[n..]
    ensures Older(reg, a, b)
  {
    var i :| 0 <= i < n && reg.order[..n][i] == a;
    var j :| 0 <= j < |reg.order| - n && reg.order[n..][j] == b;
    assert Older(reg, reg.order[i], reg.order[n + j]);
  }

  lemma MembersOfTwo(a: seq<Sid>, b: seq<Sid>)
    ensures Members(a + b) == Members(a) + Members(b)
  {
  }

  lemma DropOrder(reg: Registry, n: nat)
    requires Orderly(reg) && n <= |reg.order|
    ensures Orderly(DropOldest(reg, n))
  {
    OrderSplits(reg, n);
    var t := DropOldest(reg, n);
    forall i, j | 0 <= i < j < |t.order| ensures Older(t, t.order[i], t.order[j]) {
      assert Older(reg, reg.order[n + i], reg.order[n + j]);
      assert t.order[i] in Members(t.order) && t.order[j] in Members(t.order);
    }
  }

  lemma NewSessionOrder(reg: Registry, maxSessions: nat, sid: Sid)
    requires OrderInv(reg, maxSessions) && sid !in reg.sessions
    ensures var r := Registered(reg, sid); OrderInv(DropOldest(r, Excess(r, maxSessions)), maxSessions)
  {
    RegisterOrder(reg, sid);
    DropOrder(Registered(reg, sid), Excess(Registered(reg, sid), maxSessions));
  }

  /** Handing out an ID still in use is exactly what breaks the order. */
  lemma NewSessionOrderIff(reg: Registry, maxSessions: nat, sid: Sid)
    requires OrderInv(reg, maxSessions)
    ensures var r := Registered(reg, sid);
            OrderInv(DropOldest(r, Excess(r, maxSessions)), maxSessions) <==> sid !in reg.sessions
  {
    if sid !in reg.sessions {
      NewSessionOrder(reg, maxSessions, sid);
    } else {
      var r := Registered(reg, sid);
      var n := Excess(r, maxSessions);
      var t := DropOldest(r, n);
      assert sid in Members(reg.order);
      var j :| 0 <= j < |reg.order| && reg.order[j] == sid;
      assert r.order[j] == sid && r.order[|reg.order|] == sid && n <= 1;
      assert t.order[|t.order| - 1] == sid;
      if j < n {
        assert r.order[..n][j] == sid;
        assert sid in Members(t.order) && sid !in t.sessions;
      } else {
        assert t.order[j - n] == sid;
      }
    }
  }

  /** Every session a new one pushes out is older than every session that stays. */
  lemma OldestGoFirst(reg: Registry, maxSessions: nat, sid: Sid, gone: Sid, kept: Sid)
    requires OrderInv(reg, maxSessions) && sid !in reg.sessions
    requires var r := Registered(reg, sid); var t := DropOldest(r, Excess(r, maxSessions));
             gone in r.sessions && gone !in t.sessions && kept in t.sessions
    ensures Older(Registered(reg, sid), gone, kept)
  {
    RegisterOrder(reg, sid);
    OrderSplits(Registered(reg, sid), Excess(Registered(reg, sid), maxSessions));
  }

  lemma {:induction false} RemoveFirstKeeps(order: seq<Sid>, sid: Sid) returns (k: nat)
    ensures k <= |order| && (k < |order| <==> sid in order)
    ensures sid in order ==> order[k] == sid && RemoveFirst(order, sid) == order[..k] + order[k + 1..]
    ensures sid !in order ==> RemoveFirst(order, sid) == order
  {
    if order == [] {
      k := 0;
    } else if order[0] == sid {
      k := 0;
    } else {
      k := RemoveFirstKeeps(order[1..], sid);
      k := k + 1;
      assert order == [order[0]] + order[1..];
    }
  }

  lemma MembersWithout(reg: Registry, k: nat)
    requires Orderly(reg) && k < |reg.order|
    ensures Members(reg.order[..k] + reg.order[k + 1..]) == reg.sessions.Keys - {reg.order[k]}
  {
    var before, at, behind := reg.order[..k], [reg.order[k]], reg.order[k + 1..];
    OrderSplits(reg, k);
    OrderSplits(reg, k + 1);
    assert reg.order[..k + 1] == before + at && reg.order[k..] == at + behind;
    MembersOfTwo(before, at);
    MembersOfTwo(at, behind);
    MembersOfTwo(before, behind);
    assert Members(at) == {reg.order[k]};
    assert forall x | x in Members(before) && x in Members(reg.order[k..]) :: Older(reg, x, x);
    assert forall x | x in Members(reg.order[..k + 1]) && x in Members(behind) :: Older(reg, x, x);
  }

  lemma RemoveAtOrder(reg: Registry, k: nat)
    requires Orderly(reg) && k < |reg.order|
    ensures Orderly(Registry(reg.sessions - {reg.order[k]}, reg.order[..k] + reg.order[k + 1..], reg.cancels))
  {
    var t := Registry(reg.sessions - {reg.order[k]}, reg.order[..k] + reg.order[k + 1..], reg.cancels);
    MembersWithout(reg, k);
    forall i, j | 0 <= i < j < |t.order| ensures Older(t, t.order[i], t.order[j]) {
      assert t.order[i] in Members(t.order) && t.order[j] in Members(t.order);
      assert Older(reg, reg.order[if i < k then i else i + 1], reg.order[if j < k then j else j + 1]);
    }
  }

  lemma CloseOrder(reg: Registry, maxSessions: int, sid: Sid)
    requires OrderInv(reg, maxSessions)
    ensures OrderInv(Closed(reg, sid), maxSessions)
  {
    var k := RemoveFirstKeeps(reg.order, sid);
    if k < |reg.order| {
      RemoveAtOrder(reg, k);
      assert reg.order[k] == sid;
    } else {
      assert sid !in Members(reg.order);
      assert reg.sessions - {sid} == reg.sessions;
    }
  }

  /** Over every run in which session IDs are fresh. */
  lemma {:induction false} OrderHolds(maxSessions: nat, states: seq<State>, steps: seq<Step>, n: nat)
    requires IsRun(maxSessions, states, steps) && n < |states|
    requires forall k | 0 <= k < |steps| && steps[k].NewSession? :: steps[k].sid !in states[k].reg.sessions
    ensures OrderInv(states[n].reg, maxSessions)
  {
    if n > 0 {
      OrderHolds(maxSessions, states, steps, n - 1);
      var reg := states[n - 1].reg;
      match steps[n - 1]
      case NewSession(sid) => NewSessionOrder(reg, maxSessions, sid);
      case Close(sid) => CloseOrder(reg, maxSessions, sid);
      case _ =>
    }
  }

  // ---------------------------------------------------------------- who cancels what

  predicate HoldsMutex(phase: Phase) {
    phase == Holding || phase == Running || phase == Cleared || phase == Cancelled
  }

  predicate Begun(phase: Phase) {
    phase == Running || phase == Cleared || phase == Cancelled || phase == Done
  }

  /** A capture names a begun turn of the very session it was asked for. */
  ghost predicate OwnTurn(s: State, c: Capture) {
    && c.turn < |s.turns| && Begun(s.turns[c.turn].phase)
    && s.turns[c.turn].session < |s.names| && s.names[s.turns[c.turn].session] == c.sid
  }

  ghost predicate SessionsInv(s: State) {
    && |s.names| == |s.reg.cancels|
    && (forall sid | sid in s.reg.sessions :: s.reg.sessions[sid] < |s.names| && s.names[s.reg.sessions[sid]] == sid)
    && forall t | 0 <= t < |s.turns| :: s.turns[t].session < |s.names|
  }

  /** The turn mutex and the cancel fields: set exactly while the session's turn runs. */
  ghost predicate MutexInv(s: State) {
    && SessionsInv(s)
    && (forall t | 0 <= t < |s.turns| :: HoldsMutex(s.turns[t].phase) <==> s.holder == Some(t))
    && (s.holder.Some? ==> s.holder.value < |s.turns|)
    && (forall o | 0 <= o < |s.names| && s.reg.cancels[o].Some? ::
          var t := s.reg.cancels[o].value; t < |s.turns| && s.turns[t] == Turn(o, Running))
    && forall t | 0 <= t < |s.turns| && s.turns[t].phase == Running :: s.reg.cancels[s.turns[t].session] == Some(t)
  }

  ghost predicate CaptureInv(s: State) {
    && (forall c | c in s.captured :: OwnTurn(s, c))
    && (forall c | c in s.called :: OwnTurn(s, c))
    && forall t | t in s.cancelled ::
         t < |s.turns| && s.turns[t].session < |s.names|
         && (s.turns[t].phase in {Cancelled, Done} || Capture(s.names[s.turns[t].session], t) in s.called)
  }

  lemma SessionsKept(s: State, maxSessions: int, step: Step)
    requires SessionsInv(s) && Enabled(s, maxSessions, step)
    ensures SessionsInv(Next(s, maxSessions, step))
  {
  }

  lemma MutexKept(s: State, maxSessions: int, step: Step)
    requires MutexInv(s) && Enabled(s, maxSessions, step)
    ensures MutexInv(Next(s, maxSessions, step))
  {
    SessionsKept(s, maxSessions, step);
    match step
    case StoreCancel(t) => assert s.holder == Some(t);
    case ClearCancel(t) => assert s.holder == Some(t);
    case CancelOwn(t) => assert s.holder == Some(t);
    case Release(t) => assert s.holder == Some(t);
    case _ =>
  }

  lemma {:induction false} TakenFromHeld(reg: Registry, sids: seq<Sid>, c: Capture)
    requires WellFormed(reg)
    ensures c in TakenFrom(reg, sids) <==> c.sid in sids && HeldBy(reg, c.sid) == Some(c.turn)
    decreases |sids|
  {
    if sids != [] {
      TakenFromHeld(Without(reg, sids[0]), sids[1..], c);
      assert c in TakenFrom(reg, sids) <==>
        c in Taken(reg, sids[0]) || c in TakenFrom(Without(reg, sids[0]), sids[1..]);
      assert c.sid in sids <==> c.sid == sids[0] || c.sid in sids[1..];
    }
  }

  lemma HeldIsOwn(s: State, sid: Sid, t: nat)
    requires MutexInv(s) && HeldBy(s.reg, sid) == Some(t)
    ensures OwnTurn(s, Capture(sid, t)) && s.turns[t].phase == Running
  {
  }

  /** The steps that take a session's cancel function: a cancel or close of it, or its eviction. */
  predicate Takes(s: State, step: Step, t: State, sid: Sid) {
    || step == Cancel(sid)
    || step == Close(sid)
    || (step.NewSession? && sid in s.reg.sessions && sid !in t.reg.sessions)
  }

  /** What a step adds to the captures, each a cancel function some session held. */
  lemma NewCaptures(s: State, maxSessions: int, step: Step, c: Capture)
    requires MutexInv(s) && Enabled(s, maxSessions, step)
    requires c in Next(s, maxSessions, step).captured && c !in s.captured
    ensures HeldBy(s.reg, c.sid) == Some(c.turn) && Takes(s, step, Next(s, maxSessions, step), c.sid)
  {
    if step.NewSession? {
      var r := Registered(s.reg, step.sid);
      TakenFromHeld(r, r.order[..Excess(r, maxSessions)], c);
    }
  }

  lemma CapturesKept(s: State, maxSessions: int, step: Step)
    requires MutexInv(s) && CaptureInv(s) && Enabled(s, maxSessions, step)
    ensures CaptureInv(Next(s, maxSessions, step))
  {
    var t := Next(s, maxSessions, step);
    forall c | c in t.captured ensures OwnTurn(t, c) {
      if c !in s.captured {
        NewCaptures(s, maxSessions, step, c);
        HeldIsOwn(s, c.sid, c.turn);
      }
    }
  }

  ghost predicate Inv(s: State) {
    MutexInv(s) && CaptureInv(s)
  }

  lemma {:induction false} InvHolds(maxSessions: int, states: seq<State>, steps: seq<Step>, n: nat)
    requires IsRun(maxSessions, states, steps) && n < |states|
    ensures Inv(states[n])
  {
    if n > 0 {
      InvHolds(maxSessions, states, steps, n - 1);
      MutexKept(states[n - 1], maxSessions, steps[n - 1]);
      CapturesKept(states[n - 1], maxSessions, steps[n - 1]);
    }
  }

  /** At most one session object, evicted ones included, has a cancel function at any moment. */
  lemma OneCancelAtATime(maxSessions: int, states: seq<State>, steps: seq<Step>, n: nat, o: nat, p: nat)
    requires IsRun(maxSessions, states, steps) && n < |states|
    requires o < |states[n].reg.cancels| && p < |states[n].reg.cancels|
    requires states[n].reg.cancels[o].Some? && states[n].reg.cancels[p].Some?
    ensures o == p
  {
    InvHolds(maxSessions, states, steps, n);
  }

  /** A turn's context is cancelled only by the turn itself when it ends, or by a cancel function
      taken by a cancel, a close or an eviction of the turn's own session while the turn ran. */
  lemma CancelledForAReason(maxSessions: int, states: seq<State>, steps: seq<Step>, n: nat, t: nat)
    requires IsRun(maxSessions, states, steps) && n < |states| && t in states[n].cancelled
    ensures t < |states[n].turns| && states[n].turns[t].session < |states[n].names|
    ensures var sid := states[n].names[states[n].turns[t].session];
      || states[n].turns[t].phase in {Cancelled, Done}
      || exists k :: 0 <= k < n && WellFormed(states[k].reg) && HeldBy(states[k].reg, sid) == Some(t)
                     && Takes(states[k], steps[k], states[k + 1], sid)
  {
    InvHolds(maxSessions, states, steps, n);
    var sid := states[n].names[states[n].turns[t].session];
    if states[n].turns[t].phase !in {Cancelled, Done} {
      var k := TakenBefore(maxSessions, states, steps, n, Capture(sid, t));
    }
  }

  lemma {:induction false} TakenBefore(maxSessions: int, states: seq<State>, steps: seq<Step>, n: nat, c: Capture)
    returns (k: nat)
    requires IsRun(maxSessions, states, steps) && n < |states|
    requires c in states[n].captured + states[n].called
    ensures k < n && WellFormed(states[k].reg) && HeldBy(states[k].reg, c.sid) == Some(c.turn)
    ensures Takes(states[k], steps[k], states[k + 1], c.sid)
  {
    if c in states[n - 1].captured + states[n - 1].called {
      k := TakenBefore(maxSessions, states, steps, n - 1, c);
    } else {
      k := n - 1;
      InvHolds(maxSessions, states, steps, k);
      NewCaptures(states[k], maxSessions, steps[k], c);
    }
  }

  /** The cancel functions waiting to be called after a step: those that were, save one just called, and
      those that a cancel, a close or an eviction took from the sessions that held them. */
  lemma CapturedIff(s: State, maxSessions: int, step: Step, c: Capture)
    requires MutexInv(s) && Enabled(s, maxSessions, step)
    requires step.NewSession? ==> step.sid !in s.reg.sessions
    ensures var t := Next(s, maxSessions, step);
      c in t.captured <==>
        || (c in s.captured && step != Call(c))
        || (HeldBy(s.reg, c.sid) == Some(c.turn) && Takes(s, step, t, c.sid))
  {
    if step.NewSession? {
      var r := Registered(s.reg, step.sid);
      TakenFromHeld(r, r.order[..Excess(r, maxSessions)], c);
    }
  }

  /** A turn that has ended has cancelled its own context, and a cancel function that was called has
      cancelled its turn's. */
  ghost predicate EndsCancelled(s: State) {
    && (forall t | 0 <= t < |s.turns| && s.turns[t].phase in {Cancelled, Done} :: t in s.cancelled)
    && forall c | c in s.called :: c.turn in s.cancelled
  }

  lemma {:induction false} EndsCancelledHolds(maxSessions: int, states: seq<State>, steps: seq<Step>, n: nat)
    requires IsRun(maxSessions, states, steps) && n < |states|
    ensures EndsCancelled(states[n])
  {
    if n > 0 {
      EndsCancelledHolds(maxSessions, states, steps, n - 1);
      assert Moves(maxSessions, states[n - 1], steps[n - 1], states[n]);
    }
  }

  /** In every run a turn's context is cancelled exactly when the turn has ended or one of its cancel
      functions has been called. */
  lemma CancelledIff(maxSessions: int, states: seq<State>, steps: seq<Step>, n: nat, t: nat)
    requires IsRun(maxSessions, states, steps) && n < |states| && t < |states[n].turns|
    ensures t in states[n].cancelled <==>
              states[n].turns[t].phase in {Cancelled, Done} || exists c :: c in states[n].called && c.turn == t
  {
    InvHolds(maxSessions, states, steps, n);
    EndsCancelledHolds(maxSessions, states, steps, n);
  }

  /** A cancel, a close or an eviction of a session whose turn is running takes effect: from then on the
      turn's context is cancelled, or the call that cancels it is still to come. */
  lemma {:induction false} CancelTakesEffect(
      maxSessions: int, states: seq<State>, steps: seq<Step>, n: nat, m: nat, sid: Sid, t: nat)
    requires IsRun(maxSessions, states, steps) && n < m < |states|
    requires sid in states[n].reg.sessions && t < |states[n].turns|
    requires states[n].turns[t] == Turn(states[n].reg.sessions[sid], Running)
    requires ((steps[n].Cancel? || steps[n].Close?) && steps[n].sid == sid)
             || (steps[n].NewSession? && steps[n].sid !in states[n].reg.sessions
                 && sid !in states[n + 1].reg.sessions)
    ensures t in states[m].cancelled || Enabled(states[m], maxSessions, Call(Capture(sid, t)))
  {
    assert Moves(maxSessions, states[m - 1], steps[m - 1], states[m]);
    InvHolds(maxSessions, states, steps, n);
    if n < m - 1 {
      CancelTakesEffect(maxSessions, states, steps, n, m - 1, sid, t);
    } else {
      CapturedIff(states[n], maxSessions, steps[n], Capture(sid, t));
    }
  }

  /** Cancel and close take a cancel function exactly when a turn of that session is running: one
      still waiting for the turn mutex is not reached. */
  lemma TakesRunningTurnIff(s: State, sid: Sid, t: nat)
    requires Inv(s) && sid in s.reg.sessions && t < |s.turns| && s.turns[t].session == s.reg.sessions[sid]
    ensures HeldBy(s.reg, sid) == Some(t) <==> s.turns[t].phase == Running
    ensures Taken(s.reg, sid) == [Capture(sid, t)] <==> s.turns[t].phase == Running
  {
  }

  /** A turn no one can cancel any more: its session object is off the map and no capture has it. */
  ghost predicate OutOfReach(s: State, t: nat) {
    && t < |s.turns|
    && (forall sid | sid in s.reg.sessions :: s.reg.sessions[sid] != s.turns[t].session)
    && forall c | c in s.captured + s.called :: c.turn != t
  }

  lemma StaysOutOfReach(s: State, maxSessions: int, step: Step, t: nat)
    requires Inv(s) && Enabled(s, maxSessions, step) && OutOfReach(s, t)
    ensures OutOfReach(Next(s, maxSessions, step), t)
  {
    var r := Next(s, maxSessions, step);
    forall c | c in r.captured + r.called ensures c.turn != t {
      if c !in s.captured + s.called {
        NewCaptures(s, maxSessions, step, c);
        HeldIsOwn(s, c.sid, c.turn);
      }
    }
  }

  lemma OnlyEndsItself(s: State, t: nat)
    requires Inv(s) && OutOfReach(s, t)
    ensures t in s.cancelled ==> s.turns[t].phase in {Cancelled, Done}
  {
  }

  /** The turn's session object is off the map, closed or evicted. */
  ghost predicate Unregistered(s: State, t: nat)
    requires t < |s.turns|
  {
    forall sid | sid in s.reg.sessions :: s.reg.sessions[sid] != s.turns[t].session
  }

  /** A prompt that has not begun its turn has never been captured. */
  lemma UnbegunIsOutOfReach(s: State, t: nat)
    requires Inv(s) && t < |s.turns| && !Begun(s.turns[t].phase) && Unregistered(s, t)
    ensures OutOfReach(s, t)
  {
    assert forall c | c in s.captured :: OwnTurn(s, c);
    assert forall c | c in s.called :: OwnTurn(s, c);
  }

  /** A prompt still waiting for the turn mutex when its session object leaves the map, for whatever
      reason, can only run to its own end. */
  lemma {:induction false} QueuedTurnOutlivesSession(
      maxSessions: int, states: seq<State>, steps: seq<Step>, m: nat, n: nat, t: nat)
    requires IsRun(maxSessions, states, steps) && m <= n < |states|
    requires t < |states[m].turns| && !Begun(states[m].turns[t].phase) && Unregistered(states[m], t)
    ensures OutOfReach(states[n], t)
    ensures t in states[n].cancelled ==> states[n].turns[t].phase in {Cancelled, Done}
  {
    InvHolds(maxSessions, states, steps, n);
    if m == n {
      UnbegunIsOutOfReach(states[n], t);
    } else {
      QueuedTurnOutlivesSession(maxSessions, states, steps, m, n - 1, t);
      InvHolds(maxSessions, states, steps, n - 1);
      StaysOutOfReach(states[n - 1], maxSessions, steps[n - 1], t);
    }
    OnlyEndsItself(states[n], t);
  }

  /** Closing a session does not stop its prompts that still wait for the turn mutex: once the
      session is closed they can only run to their own end. */
  lemma QueuedTurnOutlivesClose(maxSessions: int, states: seq<State>, steps: seq<Step>, m: nat, n: nat, t: nat)
    requires IsRun(maxSessions, states, steps) && m < n < |states|
    requires t < |states[m].turns| && !Begun(states[m].turns[t].phase)
    requires steps[m].Close? && states[m].turns[t].session < |states[m].names|
    requires steps[m].sid == states[m].names[states[m].turns[t].session]
    ensures OutOfReach(states[n], t)
    ensures t in states[n].cancelled ==> states[n].turns[t].phase in {Cancelled, Done}
  {
    InvHolds(maxSessions, states, steps, m);
    QueuedTurnOutlivesSession(maxSessions, states, steps, m + 1, n, t);
  }

  /** Nor does evicting it. */
  lemma QueuedTurnOutlivesEviction(maxSessions: int, states: seq<State>, steps: seq<Step>, m: nat, n: nat, t: nat)
    requires IsRun(maxSessions, states, steps) && m < n < |states|
    requires t < |states[m].turns| && !Begun(states[m].turns[t].phase)
    requires steps[m].NewSession? && states[m].turns[t].session < |states[m].names|
    requires states[m].names[states[m].turns[t].session] !in states[m + 1].reg.sessions
    ensures OutOfReach(states[n], t)
    ensures t in states[n].cancelled ==> states[n].turns[t].phase in {Cancelled, Done}
  {
    InvHolds(maxSessions, states, steps, m);
    InvHolds(maxSessions, states, steps, m + 1);
    QueuedTurnOutlivesSession(maxSessions, states, steps, m + 1, n, t);
  }

  lemma Grow(maxSessions: int, states: seq<State>, steps: seq<Step>, step: Step, next: State)
    returns (more: seq<State>, moreSteps: seq<Step>)
    requires IsRun(maxSessions, states, steps)
    requires Enabled(states[|steps|], maxSessions, step) && next == Next(states[|steps|], maxSessions, step)
    ensures IsRun(maxSessions, more, moreSteps) && moreSteps == steps + [step] && more == states + [next]
  {
    more, moreSteps := states + [next], steps + [step];
    assert Moves(maxSessions, states[|steps|], step, next);
    forall n | 0 <= n < |moreSteps| ensures Moves(maxSessions, more[n], moreSteps[n], more[n + 1]) {
      assert n < |steps| ==> Moves(maxSessions, states[n], steps[n], states[n + 1]);
    }
  }

  function OneTurn(sessions: map<Sid, nat>, order: seq<Sid>, cancel: Option<nat>, name: Sid, turns: seq<Turn>,
    holder: Option<nat>): State
  {
    State(Registry(sessions, order, [cancel]), [name], turns, holder, {}, {}, {})
  }

  lemma PromptedSession(maxSessions: int, sid: Sid) returns (states: seq<State>, steps: seq<Step>)
    requires maxSessions >= 1
    ensures IsRun(maxSessions, states, steps) && |steps| == 2
    ensures states[2] == OneTurn(map[sid := 0], [sid], None, sid, [Turn(0, Waiting)], None)
  {
    var registered := OneTurn(map[sid := 0], [sid], None, sid, [], None);
    NewSessionAlone(maxSessions, sid);
    states, steps := Grow(maxSessions, [EMPTY], [], NewSession(sid), registered);
    var prompted := OneTurn(map[sid := 0], [sid], None, sid, [Turn(0, Waiting)], None);
    states, steps := Grow(maxSessions, states, steps, Prompt(sid), prompted);
  }

  lemma NewSessionAlone(maxSessions: nat, sid: Sid)
    requires maxSessions >= 1
    ensures NewSessionNext(EMPTY, maxSessions, sid) == OneTurn(map[sid := 0], [sid], None, sid, [], None)
  {
    var reg := Registered(EMPTY.reg, sid);
    assert reg.order == [sid] && Excess(reg, maxSessions) == 0;
    DropNone(reg);
  }

  lemma ClosedSession(maxSessions: int, sid: Sid) returns (states: seq<State>, steps: seq<Step>)
    requires maxSessions >= 1
    ensures IsRun(maxSessions, states, steps) && |steps| == 3 && steps[2] == Close(sid)
    ensures states[2].turns == [Turn(0, Waiting)] && states[2].names == [sid]
    ensures states[3] == OneTurn(map[], [], None, sid, [Turn(0, Waiting)], None)
  {
    states, steps := PromptedSession(maxSessions, sid);
    states, steps := Grow(maxSessions, states, steps, Close(sid),
      OneTurn(map[], [], None, sid, [Turn(0, Waiting)], None));
  }

  /** Such a run, under any limit that lets the session stay: opened, prompted, closed before the
      prompt takes the turn mutex; the prompt then begins its turn with its session gone. */
  lemma ClosedWhileQueued(maxSessions: int, sid: Sid) returns (states: seq<State>, steps: seq<Step>)
    requires maxSessions >= 1
    ensures IsRun(maxSessions, states, steps) && |steps| == 5 && steps[2] == Close(sid)
    ensures states[2].turns == [Turn(0, Waiting)] && states[2].names == [sid]
    ensures states[5].turns == [Turn(0, Running)] && OutOfReach(states[5], 0)
  {
    states, steps := ClosedSession(maxSessions, sid);
    states, steps := Grow(maxSessions, states, steps, Acquire(0),
      OneTurn(map[], [], None, sid, [Turn(0, Holding)], Some(0)));
    states, steps := Grow(maxSessions, states, steps, StoreCancel(0),
      OneTurn(map[], [], Some(0), sid, [Turn(0, Running)], Some(0)));
  }
}
