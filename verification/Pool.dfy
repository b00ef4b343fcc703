/** The tech-lead pool: one instance per active item, with a warm standby kept when the last item
    is released. Instance start and stop calls are recorded in `spawned` and `stopped`; saving the
    state file always succeeds. */
module Pool {
  import opened Wrappers
  import opened Text

  datatype Status = Idle | Allocated | Terminating

  datatype Entry = Entry(name: string, status: Status, itemID: string, allocatedAt: int, busID: string)

  datatype Error = DuplicateItem | SpawnFailed | NoEntry

  datatype State = State(
    entries: seq<Entry>, counter: nat, spawned: seq<string>, stopped: seq<string>, saved: seq<Entry>)

  const EMPTY := State([], 0, [], [], [])

  function NameOf(n: nat): string {
    "tech-lead-" + Decimal(n)
  }

  /** The index of the first entry for an item, or the length when there is none. */
  function FindItem(es: seq<Entry>, item: string): (i: nat)
    ensures i <= |es|
    ensures i < |es| ==> es[i].itemID == item
    ensures forall k | 0 <= k < i :: es[k].itemID != item
  {
    if es == [] || es[0].itemID == item then 0 else 1 + FindItem(es[1..], item)
  }

  function FindIdle(es: seq<Entry>): (i: nat)
    ensures i <= |es|
    ensures i < |es| ==> es[i].status == Idle
    ensures forall k | 0 <= k < i :: es[k].status != Idle
  {
    if es == [] || es[0].status == Idle then 0 else 1 + FindIdle(es[1..])
  }

  function Remove(es: seq<Entry>, i: nat): (r: seq<Entry>)
    requires i < |es|
    ensures |r| == |es| - 1
    ensures forall k | 0 <= k < i :: r[k] == es[k]
    ensures forall k | i <= k < |r| :: r[k] == es[k + 1]
  {
    es[..i] + es[i + 1..]
  }

  function Saved(s: State): State {
    s.(saved := s.entries)
  }

  function AllocateIdle(s: State, i: nat, item: string, now: int): State
    requires i < |s.entries|
  {
    Saved(s.(entries := s.entries[i := s.entries[i].(status := Allocated, itemID := item, allocatedAt := now)]))
  }

  function AllocateNew(s: State, item: string, now: int): State {
    var name := NameOf(s.counter + 1);
    var e := Entry(name, Allocated, item, now, "bus-" + name);
    Saved(s.(entries := s.entries + [e], counter := s.counter + 1, spawned := s.spawned + [name]))
  }

  function Allocate(s: State, item: string, now: int, spawnOk: bool): (State, Result<Entry, Error>) {
    if FindItem(s.entries, item) < |s.entries| then (s, Err(DuplicateItem))
    else
      var i := FindIdle(s.entries);
      if i < |s.entries| then
        var t := AllocateIdle(s, i, item, now);
        (t, Ok(t.entries[i]))
      else if !spawnOk then (s, Err(SpawnFailed))
      else
        var t := AllocateNew(s, item, now);
        (t, Ok(t.entries[|s.entries|]))
  }

  function Standby(s: State): State
    requires |s.entries| == 1
  {
    Saved(s.(entries := [s.entries[0].(status := Idle, itemID := "")]))
  }

  function Stopped(s: State, i: nat): State
    requires i < |s.entries|
  {
    Saved(s.(entries := Remove(s.entries, i), stopped := s.stopped + [s.entries[i].name]))
  }

  function Deallocate(s: State, item: string): (State, Result<(), Error>) {
    var i := FindItem(s.entries, item);
    if i == |s.entries| then (s, Err(NoEntry))
    else if |s.entries| == 1 then (Standby(s), Ok(()))
    else (Stopped(s, i), Ok(()))
  }

  /** The records whose instances are still running, in order. */
  function StillRunning(records: seq<Entry>, running: set<string>): seq<Entry> {
    if records == [] then []
    else
      var kept := StillRunning(records[..|records| - 1], running);
      var last := records[|records| - 1];
      if last.name in running then kept + [last] else kept
  }

  /** The filter is fixed by what it does to one record and to two lists laid end to end. */
  lemma {:induction false} StillRunningParts(a: seq<Entry>, b: seq<Entry>, running: set<string>)
    ensures StillRunning(a + b, running) == StillRunning(a, running) + StillRunning(b, running)
    ensures |a| == 1 ==> StillRunning(a, running) == if a[0].name in running then a else []
    decreases |b|
  {
    if |a| == 1 {
      assert a[..0] == [] && a == [a[0]];
    }
    if b == [] {
      assert a + b == a;
    } else {
      StillRunningParts(a, b[..|b| - 1], running);
      assert (a + b)[..|a + b| - 1] == a + b[..|b| - 1];
      assert (a + b)[|a + b| - 1] == b[|b| - 1];
    }
  }

  function Reconcile(s: State, records: seq<Entry>, running: set<string>): State {
    Saved(s.(entries := StillRunning(records, running)))
  }

  // ---------------------------------------------------------------- what an answer means

  predicate HasEntryFor(es: seq<Entry>, item: string) {
    exists i | 0 <= i < |es| :: es[i].itemID == item
  }

  /** Entry i is the first idle one. */
  ghost predicate FirstIdle(es: seq<Entry>, i: nat) {
    && i < |es| && es[i].status == Idle
    && forall k | 0 <= k < i :: es[k].status != Idle
  }

  /** The entry that an item is given: in the pool, and carrying the item. */
  ghost predicate Carries(es: seq<Entry>, e: Entry, item: string, now: int) {
    e in es && e.itemID == item && e.status == Allocated && e.allocatedAt == now
  }

  /** The first idle instance, its name and bus kept, takes the item; no instance is started. */
  ghost predicate TakesIdle(s: State, t: State, e: Entry, i: nat) {
    && FirstIdle(s.entries, i)
    && t.entries == s.entries[i := e]
    && e.name == s.entries[i].name && e.busID == s.entries[i].busID
    && t.spawned == s.spawned && t.counter == s.counter
  }

  /** One instance is started, under the next number, and its entry goes last. */
  ghost predicate TakesNew(s: State, t: State, e: Entry) {
    && (forall k | 0 <= k < |s.entries| :: s.entries[k].status != Idle)
    && t.entries == s.entries + [e]
    && t.counter == s.counter + 1
    && t.spawned == s.spawned + [e.name]
    && e.name == "tech-lead-" + Decimal(t.counter) && e.busID == "bus-tech-lead-" + Decimal(t.counter)
  }

  /** From any pool: an item that has an entry is refused, and so is a failed start; otherwise the
      answer is the entry the item now has, an idle instance's when there was one. */
  lemma AllocationAnswers(s: State, item: string, now: int, spawnOk: bool)
    ensures var (t, r) := Allocate(s, item, now, spawnOk);
      && (r == Err(DuplicateItem) <==> HasEntryFor(s.entries, item))
      && (r == Err(SpawnFailed) <==>
            !HasEntryFor(s.entries, item) && !spawnOk && !exists i: nat :: FirstIdle(s.entries, i))
      && (r.Err? ==> t == s && r.error in {DuplicateItem, SpawnFailed})
      && (r.Ok? ==>
            && Carries(t.entries, r.value, item, now)
            && (TakesNew(s, t, r.value) || exists i: nat :: TakesIdle(s, t, r.value, i))
            && t.stopped == s.stopped && t.saved == t.entries)
  {
    var (t, r) := Allocate(s, item, now, spawnOk);
    var i := FindIdle(s.entries);
    if i < |s.entries| {
      assert FirstIdle(s.entries, i);
      if r.Ok? {
        assert t.entries[i] == r.value && TakesIdle(s, t, r.value, i);
      }
    } else if r.Ok? {
      assert t.entries[|s.entries|] == r.value;
      assert "bus-" + ("tech-lead-" + Decimal(t.counter)) == "bus-tech-lead-" + Decimal(t.counter);
      assert TakesNew(s, t, r.value);
    }
  }

  /** The sole entry becomes the standby, its instance left running. */
  ghost predicate KeptIdle(s: State, t: State) {
    && |s.entries| == 1 && |t.entries| == 1
    && t.entries[0] == Entry(s.entries[0].name, Idle, "", s.entries[0].allocatedAt, s.entries[0].busID)
    && t.stopped == s.stopped
  }

  /** Entry i is gone, the others stay in order, and its instance is stopped. */
  ghost predicate TakenOut(s: State, t: State, i: nat) {
    && i < |s.entries| != 1
    && t.entries == s.entries[..i] + s.entries[i + 1..]
    && t.stopped == s.stopped + [s.entries[i].name]
  }

  /** From any pool: a release is refused exactly when the item has no entry; otherwise the first
      entry it has is kept as the standby, if it is the last of the pool, or taken out. */
  lemma ReleaseAnswers(s: State, item: string)
    ensures var (t, r) := Deallocate(s, item);
      && (r == Err(NoEntry) <==> !HasEntryFor(s.entries, item))
      && (r.Err? ==> t == s)
      && (r.Ok? ==>
            && t.spawned == s.spawned && t.counter == s.counter && t.saved == t.entries
            && exists i: nat ::
                 && i < |s.entries| && s.entries[i].itemID == item && !HasEntryFor(s.entries[..i], item)
                 && (KeptIdle(s, t) || TakenOut(s, t, i)))
  {
    var (t, r) := Deallocate(s, item);
    var i := FindItem(s.entries, item);
    if i < |s.entries| {
      assert !HasEntryFor(s.entries[..i], item);
      assert KeptIdle(s, t) || TakenOut(s, t, i);
    }
  }

  // ---------------------------------------------------------------- the pool

  class PoolEntry {
    var name: string
    var status: Status
    var itemID: string
    var allocatedAt: int
    var busID: string

    constructor (name: string, status: Status, itemID: string, allocatedAt: int, busID: string)
      ensures View() == Entry(name, status, itemID, allocatedAt, busID)
    {
      this.name, this.status, this.itemID := name, status, itemID;
      this.allocatedAt, this.busID := allocatedAt, busID;
    }

    function View(): Entry
      reads this
    {
      Entry(name, status, itemID, allocatedAt, busID)
    }
  }

  class TechLeadPool {
    var entries: seq<PoolEntry>
    var counter: nat
    var spawned: seq<string>
    var stopped: seq<string>
    var saved: seq<Entry>

    ghost predicate Valid()
      reads this
    {
      forall i, j | 0 <= i < j < |entries| :: entries[i] != entries[j]
    }

    function Entries(): (es: seq<Entry>)
      reads this, entries
      ensures |es| == |entries| && forall i | 0 <= i < |es| :: es[i] == entries[i].View()
    {
      seq(|entries|, i requires 0 <= i < |entries| reads this, entries => entries[i].View())
    }

    function View(): State
      reads this, entries
    {
      State(Entries(), counter, spawned, stopped, saved)
    }

    constructor ()
      ensures Valid() && fresh(entries) && View() == EMPTY
    {
      entries, counter, spawned, stopped, saved := [], 0, [], [], [];
    }

    method FindByItem(item: string) returns (i: nat)
      ensures i == FindItem(Entries(), item)
    {
      i := 0;
      while i < |entries|
        invariant 0 <= i <= |entries|
        invariant forall k | 0 <= k < i :: entries[k].itemID != item
      {
        if entries[i].itemID == item {
          break;
        }
        i := i + 1;
      }
    }

    method FindIdleEntry() returns (i: nat)
      ensures i == FindIdle(Entries())
    {
      i := 0;
      while i < |entries|
        invariant 0 <= i <= |entries|
        invariant forall k | 0 <= k < i :: entries[k].status != Idle
      {
        if entries[i].status == Idle {
          break;
        }
        i := i + 1;
      }
    }

    /** Hands an entry that is already in the pool to an item. */
    method Reuse(i: nat, item: string, now: int)
      requires Valid() && i < |entries|
      modifies this`saved, entries[i]
      ensures Valid() && View() == AllocateIdle(old(View()), i, item, now)
    {
      var e := entries[i];
      e.status := Allocated;
      e.itemID := item;
      e.allocatedAt := now;
      assert Entries() == old(Entries())[i := e.View()];
      saved := Entries();
    }

    /** Appends an entry for an instance that has just been started. */
    method AppendStarted(item: string, now: int) returns (e: PoolEntry)
      requires Valid() && counter > 0
      modifies this`entries, this`saved, this`spawned
      ensures Valid() && fresh(e) && entries == old(entries) + [e]
      ensures View() == AllocateNew(old(View()).(counter := old(counter) - 1), item, now)
    {
      var name := NameOf(counter);
      spawned := spawned + [name];
      e := new PoolEntry(name, Allocated, item, now, "bus-" + name);
      entries := entries + [e];
      assert Entries() == old(Entries()) + [e.View()];
      saved := Entries();
    }

    method AllocateItem(item: string, now: int, spawnOk: bool) returns (res: Result<PoolEntry, Error>)
      requires Valid()
      modifies this, entries
      ensures Valid() && forall e | e in entries :: e in old(entries) || fresh(e)
      ensures var (t, expected) := Allocate(old(View()), item, now, spawnOk);
              && View() == t
              && (if res.Err? then expected == Err(res.error)
                  else res.value in entries && expected == Ok(res.value.View()))
      ensures res.Ok? ==> res.value.itemID == item && res.value.status == Allocated && res.value.allocatedAt == now
    {
      var at := FindByItem(item);
      if at < |entries| {
        return Err(DuplicateItem);
      }
      var i := FindIdleEntry();
      if i < |entries| {
        Reuse(i, item, now);
        assert entries[i].View() == Entries()[i];
        return Ok(entries[i]);
      }
      res := SpawnFor(item, now, spawnOk);
    }

    /** Numbers a new instance and starts it; the number is given back when the start fails. */
    method SpawnFor(item: string, now: int, spawnOk: bool) returns (res: Result<PoolEntry, Error>)
      requires Valid()
      modifies this
      ensures Valid() && forall e | e in entries :: e in old(entries) || fresh(e)
      ensures !spawnOk ==> res == Err(SpawnFailed) && View() == old(View())
      ensures spawnOk ==> View() == AllocateNew(old(View()), item, now)
      ensures spawnOk ==> res.Ok? && res.value in entries && res.value.View() == View().entries[|old(entries)|]
      ensures spawnOk ==> res.value.itemID == item && res.value.status == Allocated && res.value.allocatedAt == now
    {
      counter := counter + 1;
      label counted:
      assert Entries() == old(Entries());
      if !spawnOk {
        counter := counter - 1;
        return Err(SpawnFailed);
      }
      var e := AppendStarted(item, now);
      assert old@counted(View()).(counter := old(counter)) == old(View());
      assert e.View() == Entries()[|entries| - 1];
      return Ok(e);
    }

    /** Keeps the last entry as a warm standby. */
    method KeepStandby()
      requires Valid() && |entries| == 1
      modifies this`saved, entries
      ensures Valid() && View() == Standby(old(View()))
    {
      var e := entries[0];
      e.status := Idle;
      e.itemID := "";
      assert Entries() == [e.View()];
      assert e.View() == old(Entries())[0].(status := Idle, itemID := "");
      saved := Entries();
    }

    method StopAndRemove(i: nat)
      requires Valid() && i < |entries|
      modifies this`entries, this`saved, this`stopped
      ensures Valid() && forall e | e in entries :: e in old(entries)
      ensures View() == Stopped(old(View()), i)
    {
      var name := entries[i].name;
      entries := entries[..i] + entries[i + 1..];
      assert Entries() == Remove(old(Entries()), i);
      saved := Entries();
      stopped := stopped + [name];
    }

    method DeallocateItem(item: string) returns (res: Result<(), Error>)
      requires Valid()
      modifies this, entries
      ensures Valid() && forall e | e in entries :: e in old(entries)
      ensures (View(), res) == Deallocate(old(View()), item)
    {
      var i := FindByItem(item);
      if i == |entries| {
        return Err(NoEntry);
      }
      if |entries| == 1 {
        KeepStandby();
      } else {
        StopAndRemove(i);
      }
      return Ok(());
    }

    method ReconcileWith(records: seq<Entry>, running: set<string>)
      modifies this
      ensures Valid() && fresh(entries)
      ensures View() == Reconcile(old(View()), records, running)
    {
      entries := [];
      for i := 0 to |records|
        invariant Valid() && fresh(entries)
        invariant Entries() == StillRunning(records[..i], running)
        invariant counter == old(counter) && spawned == old(spawned) && stopped == old(stopped)
      {
        var r := records[i];
        assert records[..i + 1][..i] == records[..i];
        if r.name in running {
          ghost var before := Entries();
          var e := new PoolEntry(r.name, r.status, r.itemID, r.allocatedAt, r.busID);
          entries := entries + [e];
          assert Entries() == before + [r];
        }
      }
      assert records[..|records|] == records;
      saved := Entries();
    }
  }

  // ---------------------------------------------------------------- refinement of a set of items

  datatype Op = AllocateOp(item: string, now: int, spawnOk: bool) | DeallocateOp(item: string)

  /** The pool as its users see it: the active items, and whether any allocation ever succeeded. */
  datatype Items = Items(active: set<string>, started: bool)

  /** An allocation succeeds when the item is not active and either the standby is free or a new
      instance starts; a release succeeds when the item is active. */
  function ItemsStep(a: Items, op: Op): (Items, bool) {
    match op
    case AllocateOp(item, _, spawnOk) =>
      if item in a.active then (a, false)
      else if (a.started && a.active == {}) || spawnOk then (Items(a.active + {item}, true), true)
      else (a, false)
    case DeallocateOp(item) =>
      if item in a.active then (a.(active := a.active - {item}), true) else (a, false)
  }

  function PoolStep(s: State, op: Op): (State, bool) {
    match op
    case AllocateOp(item, now, spawnOk) => var (t, r) := Allocate(s, item, now, spawnOk); (t, r.Ok?)
    case DeallocateOp(item) => var (t, r) := Deallocate(s, item); (t, r.Ok?)
  }

  function Names(es: seq<Entry>): (names: seq<string>)
    ensures |names| == |es| && forall i | 0 <= i < |es| :: names[i] == es[i].name
  {
    seq(|es|, i requires 0 <= i < |es| => es[i].name)
  }

  ghost predicate UniqueNames(es: seq<Entry>) {
    forall i, j | 0 <= i < j < |es| :: es[i].name != es[j].name
  }

  ghost predicate UniqueItems(es: seq<Entry>) {
    forall i, j | 0 <= i < j < |es| :: es[i].itemID != es[j].itemID
  }

  /** Every name was handed out: its number is between 1 and the counter. */
  ghost predicate NamesCounted(s: State) {
    forall i | 0 <= i < |s.entries| :: Counted(s.entries[i].name, s.counter)
  }

  ghost predicate Counted(name: string, counter: nat) {
    exists n: nat :: 1 <= n <= counter && name == NameOf(n)
  }

  function ItemIDs(es: seq<Entry>): (ids: set<string>)
    ensures forall id :: id in ids <==> exists i :: 0 <= i < |es| && es[i].itemID == id
  {
    set i | 0 <= i < |es| :: es[i].itemID
  }

  ghost predicate ItemsMatch(s: State, a: Items) {
    && a.active == ItemIDs(s.entries) - {""}
    && (forall i | 0 <= i < |s.entries| ::
          s.entries[i].status == (if s.entries[i].itemID == "" then Idle else Allocated))
    && (forall i | 0 <= i < |s.entries| && s.entries[i].itemID == "" :: |s.entries| == 1)
    && (a.started <==> s.entries != [])
    && (!a.started ==> a.active == {})
  }

  /** Started and not stopped are exactly the pool's instances. */
  ghost predicate Conserved(s: State) {
    multiset(s.spawned) == multiset(s.stopped) + multiset(Names(s.entries))
  }

  ghost predicate Refines(s: State, a: Items) {
    UniqueNames(s.entries) && UniqueItems(s.entries) && NamesCounted(s) && ItemsMatch(s, a) && Conserved(s)
    && s.saved == s.entries
  }

  lemma NamesAppend(es: seq<Entry>, e: Entry)
    ensures Names(es + [e]) == Names(es) + [e.name]
  {
  }

  lemma NamesRemove(es: seq<Entry>, i: nat)
    requires i < |es|
    ensures multiset(Names(es)) == multiset(Names(Remove(es, i))) + multiset{es[i].name}
  {
    var names := Names(es);
    assert Names(Remove(es, i)) == names[..i] + names[i + 1..];
    assert names == names[..i] + [names[i]] + names[i + 1..];
  }

  /** The counter's next name is new as long as every name in the pool came from the counter. */
  lemma NextNameIsNew(s: State)
    requires NamesCounted(s)
    ensures forall i | 0 <= i < |s.entries| :: s.entries[i].name != NameOf(s.counter + 1)
  {
    forall i | 0 <= i < |s.entries| ensures s.entries[i].name != NameOf(s.counter + 1) {
      assert Counted(s.entries[i].name, s.counter);
      var n: nat :| 1 <= n <= s.counter && s.entries[i].name == NameOf(n);
      if NameOf(n) == NameOf(s.counter + 1) {
        NameInjective(n, s.counter + 1);
      }
    }
  }

  lemma NameInjective(m: nat, n: nat)
    requires NameOf(m) == NameOf(n)
    ensures m == n
  {
    var k := |"tech-lead-"|;
    assert NameOf(m)[k..] == Decimal(m) && NameOf(n)[k..] == Decimal(n);
    DecimalInjective(m, n);
  }

  lemma FindItemIff(es: seq<Entry>, item: string)
    ensures FindItem(es, item) < |es| <==> item in ItemIDs(es)
  {
  }

  lemma ItemIDsAppend(es: seq<Entry>, e: Entry)
    ensures ItemIDs(es + [e]) == ItemIDs(es) + {e.itemID}
  {
    var t := es + [e];
    assert t[|es|] == e && forall i | 0 <= i < |es| :: t[i] == es[i];
  }

  lemma ItemIDsRemove(es: seq<Entry>, i: nat)
    requires i < |es| && UniqueItems(es)
    ensures ItemIDs(Remove(es, i)) == ItemIDs(es) - {es[i].itemID}
    ensures UniqueItems(Remove(es, i))
  {
    var t := Remove(es, i);
    forall id | id in ItemIDs(es) - {es[i].itemID} ensures id in ItemIDs(t) {
      var k :| 0 <= k < |es| && es[k].itemID == id;
      assert t[if k < i then k else k - 1] == es[k];
    }
  }

  lemma AllocateReuses(s: State, a: Items, item: string, now: int, spawnOk: bool)
    requires Refines(s, a) && item != ""
    requires FindItem(s.entries, item) == |s.entries| && FindIdle(s.entries) < |s.entries|
    ensures Refines(Allocate(s, item, now, spawnOk).0, Items(a.active + {item}, true))
    ensures Allocate(s, item, now, spawnOk).1.Ok? && a.started && a.active == {}
  {
    var t := Allocate(s, item, now, spawnOk).0;
    assert |s.entries| == 1 && s.entries[0].itemID == "";
    assert Names(t.entries) == Names(s.entries);
    assert t.entries[0].itemID == item;
    assert ItemIDs(s.entries) == {""} && ItemIDs(t.entries) == {item};
  }

  lemma SpawnKeepsNames(s: State, item: string, now: int)
    requires UniqueNames(s.entries) && NamesCounted(s) && Conserved(s)
    requires FindItem(s.entries, item) == |s.entries| && FindIdle(s.entries) == |s.entries|
    ensures var t := Allocate(s, item, now, true).0;
            UniqueNames(t.entries) && NamesCounted(t) && Conserved(t)
  {
    var t := Allocate(s, item, now, true).0;
    NextNameIsNew(s);
    NamesAppend(s.entries, t.entries[|s.entries|]);
  }

  lemma SpawnKeepsItems(s: State, a: Items, item: string, now: int)
    requires UniqueItems(s.entries) && ItemsMatch(s, a) && item != ""
    requires FindItem(s.entries, item) == |s.entries| && FindIdle(s.entries) == |s.entries|
    ensures var t := Allocate(s, item, now, true).0;
            UniqueItems(t.entries) && ItemsMatch(t, Items(a.active + {item}, true))
    ensures !(a.started && a.active == {})
  {
    var t := Allocate(s, item, now, true).0;
    ItemIDsAppend(s.entries, t.entries[|s.entries|]);
    if s.entries != [] {
      assert s.entries[0].itemID in ItemIDs(s.entries);
    }
  }

  lemma ReleaseKeepsNames(s: State, item: string)
    requires UniqueNames(s.entries) && NamesCounted(s) && Conserved(s)
    requires FindItem(s.entries, item) < |s.entries|
    ensures var t := Deallocate(s, item).0;
            UniqueNames(t.entries) && NamesCounted(t) && Conserved(t)
  {
    var i := FindItem(s.entries, item);
    var t := Deallocate(s, item).0;
    if |s.entries| == 1 {
      assert Names(t.entries) == Names(s.entries);
    } else {
      NamesRemove(s.entries, i);
    }
  }

  lemma ReleaseKeepsItems(s: State, a: Items, item: string)
    requires UniqueItems(s.entries) && ItemsMatch(s, a) && item != ""
    requires FindItem(s.entries, item) < |s.entries|
    ensures var t := Deallocate(s, item).0;
            UniqueItems(t.entries) && ItemsMatch(t, a.(active := a.active - {item}))
  {
    var i := FindItem(s.entries, item);
    var t := Deallocate(s, item).0;
    ItemIDsRemove(s.entries, i);
    if |s.entries| == 1 {
      assert t.entries[0].itemID == "";
      assert ItemIDs(t.entries) == {""} && ItemIDs(s.entries) == {item};
    }
  }

  lemma AllocateRefines(s: State, a: Items, item: string, now: int, spawnOk: bool)
    requires Refines(s, a) && item != ""
    ensures var (t, r) := Allocate(s, item, now, spawnOk);
            var (b, ok) := ItemsStep(a, AllocateOp(item, now, spawnOk));
            Refines(t, b) && r.Ok? == ok
  {
    FindItemIff(s.entries, item);
    if FindItem(s.entries, item) == |s.entries| {
      if FindIdle(s.entries) < |s.entries| {
        AllocateReuses(s, a, item, now, spawnOk);
      } else {
        SpawnKeepsNames(s, item, now);
        SpawnKeepsItems(s, a, item, now);
      }
    }
  }

  lemma DeallocateRefines(s: State, a: Items, item: string)
    requires Refines(s, a) && item != ""
    ensures var (t, r) := Deallocate(s, item);
            var (b, ok) := ItemsStep(a, DeallocateOp(item));
            Refines(t, b) && r.Ok? == ok
  {
    FindItemIff(s.entries, item);
    if FindItem(s.entries, item) < |s.entries| {
      ReleaseKeepsNames(s, item);
      ReleaseKeepsItems(s, a, item);
      ReleaseSaves(s, item);
    } else {
      assert Deallocate(s, item).0 == s && ItemsStep(a, DeallocateOp(item)).0 == a;
    }
  }

  lemma ReleaseSaves(s: State, item: string)
    requires FindItem(s.entries, item) < |s.entries|
    ensures Deallocate(s, item).1.Ok? && Deallocate(s, item).0.saved == Deallocate(s, item).0.entries
  {
  }

  /** Each operation on the pool does to it what the same operation does to the set of items, and
      succeeds exactly when that one does. */
  lemma StepRefines(s: State, a: Items, op: Op)
    requires Refines(s, a) && op.item != ""
    ensures Refines(PoolStep(s, op).0, ItemsStep(a, op).0)
    ensures PoolStep(s, op).1 == ItemsStep(a, op).1
  {
    match op
    case AllocateOp(item, now, spawnOk) => AllocateRefines(s, a, item, now, spawnOk);
    case DeallocateOp(item) => DeallocateRefines(s, a, item);
  }

  function RunFrom(s: State, ops: seq<Op>): State {
    if ops == [] then s else PoolStep(RunFrom(s, ops[..|ops| - 1]), ops[|ops| - 1]).0
  }

  function RunPool(ops: seq<Op>): State {
    RunFrom(EMPTY, ops)
  }

  function RunItems(ops: seq<Op>): Items {
    if ops == [] then Items({}, false) else ItemsStep(RunItems(ops[..|ops| - 1]), ops[|ops| - 1]).0
  }

  /** From an empty pool, any history of allocations and releases of non-empty items. */
  lemma {:induction false} HistoryRefines(ops: seq<Op>)
    requires forall i | 0 <= i < |ops| :: ops[i].item != ""
    ensures Refines(RunPool(ops), RunItems(ops))
  {
    if ops != [] {
      var init := ops[..|ops| - 1];
      HistoryRefines(init);
      StepRefines(RunPool(init), RunItems(init), ops[|ops| - 1]);
    }
  }

  lemma {:induction false} UniqueItemsCount(es: seq<Entry>)
    requires UniqueItems(es)
    ensures |ItemIDs(es)| == |es|
  {
    if es != [] {
      var init, last := es[..|es| - 1], es[|es| - 1];
      UniqueItemsCount(init);
      assert forall i | 0 <= i < |init| :: init[i] == es[i];
      assert ItemIDs(es) == ItemIDs(init) + {last.itemID};
      assert last.itemID !in ItemIDs(init);
    }
  }

  lemma SizeOfRefinement(s: State, a: Items)
    requires Refines(s, a)
    ensures |s.entries| == (if !a.started then 0 else if a.active == {} then 1 else |a.active|)
  {
    UniqueItemsCount(s.entries);
    if s.entries != [] {
      assert s.entries[0].itemID in ItemIDs(s.entries);
      if s.entries[0].itemID == "" {
        assert ItemIDs(s.entries) == {""};
      } else {
        assert a.active == ItemIDs(s.entries);
      }
    }
  }

  /** The size of the pool after any such history, and the balance of starts and stops: one
      instance per active item, one standby when there is none, none before the first success. */
  lemma PoolSize(ops: seq<Op>)
    requires forall i | 0 <= i < |ops| :: ops[i].item != ""
    ensures var s, a := RunPool(ops), RunItems(ops);
      && |s.entries| == (if !a.started then 0 else if a.active == {} then 1 else |a.active|)
      && |s.spawned| - |s.stopped| == |s.entries|
  {
    HistoryRefines(ops);
    var s, a := RunPool(ops), RunItems(ops);
    SizeOfRefinement(s, a);
    assert |s.spawned| == |multiset(s.spawned)|;
    assert |multiset(s.stopped) + multiset(Names(s.entries))| == |s.stopped| + |s.entries|;
  }

  // ---------------------------------------------------------------- who holds which instance

  /** The answer to the i-th operation of a history that is an allocation. */
  function AnswerAt(ops: seq<Op>, i: nat): Result<Entry, Error>
    requires i < |ops| && ops[i].AllocateOp?
  {
    Allocate(RunPool(ops[..i]), ops[i].item, ops[i].now, ops[i].spawnOk).1
  }

  /** The i-th operation gave its item an entry, and the item has not been released since. */
  ghost predicate Holds(ops: seq<Op>, i: nat) {
    && i < |ops| && ops[i].AllocateOp? && AnswerAt(ops, i).Ok?
    && forall k | i < k < |ops| :: ops[k] != DeallocateOp(ops[i].item)
  }

  ghost predicate BusesNamed(es: seq<Entry>) {
    forall k | 0 <= k < |es| :: es[k].busID == "bus-" + es[k].name
  }

  lemma {:induction false} HistoryNamesBuses(ops: seq<Op>)
    ensures BusesNamed(RunPool(ops).entries)
  {
    if ops != [] {
      HistoryNamesBuses(ops[..|ops| - 1]);
    }
  }

  /** An allocated entry stays in the pool, unchanged, until its own item is released. */
  lemma EntryStays(s: State, a: Items, op: Op, e: Entry)
    requires Refines(s, a) && op.item != ""
    requires e in s.entries && e.itemID != "" && op != DeallocateOp(e.itemID)
    ensures e in PoolStep(s, op).0.entries
  {
    var j :| 0 <= j < |s.entries| && s.entries[j] == e;
    var t := PoolStep(s, op).0;
    match op
    case AllocateOp(item, now, spawnOk) =>
      assert FindIdle(s.entries) != j;
      assert t.entries[j] == e;
    case DeallocateOp(item) =>
      var i := FindItem(s.entries, item);
      if i < |s.entries| {
        assert i != j && |s.entries| > 1;
        assert t.entries[if j < i then j else j - 1] == e;
      }
  }

  /** What an item was given is in the pool for as long as the item is not released. */
  lemma {:induction false} HeldEntryStays(ops: seq<Op>, i: nat)
    requires (forall k | 0 <= k < |ops| :: ops[k].item != "") && Holds(ops, i)
    ensures AnswerAt(ops, i).value in RunPool(ops).entries
    ensures AnswerAt(ops, i).value.itemID == ops[i].item
    ensures ops[i].item in RunItems(ops).active
    decreases |ops|
  {
    var init, last := ops[..|ops| - 1], ops[|ops| - 1];
    HistoryRefines(init);
    HistoryRefines(ops);
    AllocationAnswers(RunPool(ops[..i]), ops[i].item, ops[i].now, ops[i].spawnOk);
    if i == |ops| - 1 {
      assert ops[..i] == init;
    } else {
      assert init[i] == ops[i] && init[..i] == ops[..i] && Holds(init, i);
      HeldEntryStays(init, i);
      EntryStays(RunPool(init), RunItems(init), last, AnswerAt(ops, i).value);
    }
  }

  lemma DifferentEntries(s: State, a: Items, d: Entry, e: Entry)
    requires Refines(s, a) && BusesNamed(s.entries)
    requires d in s.entries && e in s.entries && d.itemID != e.itemID
    ensures d.name != e.name && d.busID != e.busID
  {
    assert d.name == d.busID[4..] && e.name == e.busID[4..];
  }

  /** An item that holds an entry is refused another. */
  lemma HeldItemsDiffer(ops: seq<Op>, i: nat, j: nat)
    requires (forall k | 0 <= k < |ops| :: ops[k].item != "") && Holds(ops, i) && Holds(ops, j) && i < j
    ensures ops[i].item != ops[j].item
  {
    var before := ops[..j];
    assert before[i] == ops[i] && before[..i] == ops[..i] && Holds(before, i);
    HeldEntryStays(before, i);
    AllocationAnswers(RunPool(before), ops[j].item, ops[j].now, ops[j].spawnOk);
  }

  /** Over every history: no two items at work at the same time were handed the same instance, by
      name or by bus. */
  lemma HoldersHaveTheirOwn(ops: seq<Op>, i: nat, j: nat)
    requires (forall k | 0 <= k < |ops| :: ops[k].item != "") && Holds(ops, i) && Holds(ops, j) && i < j
    ensures AnswerAt(ops, i).value.name != AnswerAt(ops, j).value.name
    ensures AnswerAt(ops, i).value.busID != AnswerAt(ops, j).value.busID
    ensures ops[i].item != ops[j].item
  {
    HistoryRefines(ops);
    HistoryNamesBuses(ops);
    HeldItemsDiffer(ops, i, j);
    HeldEntryStays(ops, i);
    HeldEntryStays(ops, j);
    DifferentEntries(RunPool(ops), RunItems(ops), AnswerAt(ops, i).value, AnswerAt(ops, j).value);
  }

  // ---------------------------------------------------------------- restart

  lemma {:induction false} AllRunningKept(records: seq<Entry>, running: set<string>)
    requires forall i | 0 <= i < |records| :: records[i].name in running
    ensures StillRunning(records, running) == records
  {
    if records != [] {
      AllRunningKept(records[..|records| - 1], running);
      assert records == records[..|records| - 1] + [records[|records| - 1]];
    }
  }

  /** Reconciling against the state the pool saved itself, with every instance running, changes nothing. */
  lemma ReconcileIdentity(ops: seq<Op>, running: set<string>)
    requires forall i | 0 <= i < |ops| :: ops[i].item != ""
    requires forall i | 0 <= i < |RunPool(ops).saved| :: RunPool(ops).saved[i].name in running
    ensures Reconcile(RunPool(ops), RunPool(ops).saved, running) == RunPool(ops)
  {
    HistoryRefines(ops);
    AllRunningKept(RunPool(ops).saved, running);
  }

  lemma {:induction false} NoneRunning(records: seq<Entry>)
    ensures StillRunning(records, {}) == []
  {
    if records != [] {
      NoneRunning(records[..|records| - 1]);
    }
  }

  /** A name handed out between two states. */
  ghost predicate HandedOut(name: string, from: nat, to: nat) {
    exists k: nat :: from < k <= to && name == NameOf(k)
  }

  /** A name there from the start, or handed out since. */
  ghost predicate KeptOrHandedOut(s: State, t: State, name: string) {
    (exists j :: 0 <= j < |s.entries| && s.entries[j].name == name) || HandedOut(name, s.counter, t.counter)
  }

  ghost predicate NamesFrom(s: State, t: State) {
    && s.counter <= t.counter && UniqueNames(t.entries)
    && forall i | 0 <= i < |t.entries| :: KeptOrHandedOut(s, t, t.entries[i].name)
  }

  /** No entry of the start is numbered above the start's counter and up to n. */
  ghost predicate NotNumbered(s: State, n: nat) {
    forall j, k | 0 <= j < |s.entries| && s.counter < k <= n :: s.entries[j].name != NameOf(k)
  }

  lemma NextNameUnused(s: State, t: State, i: nat)
    requires NamesFrom(s, t) && NotNumbered(s, t.counter + 1) && i < |t.entries|
    ensures t.entries[i].name != NameOf(t.counter + 1)
  {
    var name := t.entries[i].name;
    assert KeptOrHandedOut(s, t, name);
    if HandedOut(name, s.counter, t.counter) {
      var n: nat :| s.counter < n <= t.counter && name == NameOf(n);
      if NameOf(n) == NameOf(t.counter + 1) {
        NameInjective(n, t.counter + 1);
      }
    }
  }

  lemma StillHandedOut(name: string, from: nat, m: nat, n: nat)
    requires HandedOut(name, from, m) && m <= n
    ensures HandedOut(name, from, n)
  {
  }

  lemma StepKeepsNamesFrom(s: State, t: State, op: Op)
    requires NamesFrom(s, t) && NotNumbered(s, PoolStep(t, op).0.counter)
    ensures NamesFrom(s, PoolStep(t, op).0)
  {
    var u := PoolStep(t, op).0;
    CounterGrows(t, op);
    if u.counter == t.counter + 1 {
      assert u.entries[|t.entries|].name == NameOf(u.counter) && HandedOut(NameOf(u.counter), s.counter, u.counter);
      forall i | 0 <= i < |t.entries| ensures u.entries[i].name == t.entries[i].name != NameOf(u.counter) {
        NextNameUnused(s, t, i);
      }
      forall i | 0 <= i < |t.entries| ensures KeptOrHandedOut(s, u, t.entries[i].name) {
        assert KeptOrHandedOut(s, t, t.entries[i].name);
        if HandedOut(t.entries[i].name, s.counter, t.counter) {
          StillHandedOut(t.entries[i].name, s.counter, t.counter, u.counter);
        }
      }
    } else {
      OtherStepsAddNoName(t, op);
      forall i | 0 <= i < |u.entries| ensures KeptOrHandedOut(s, u, u.entries[i].name) {
        assert u.entries[i].name == t.entries[i].name || u.entries[i].name == t.entries[i + 1].name;
      }
    }
  }

  lemma OtherStepsAddNoName(s: State, op: Op)
    requires PoolStep(s, op).0.counter == s.counter
    ensures var t := PoolStep(s, op).0;
      && |t.entries| <= |s.entries|
      && (|t.entries| == |s.entries| ==> forall i | 0 <= i < |t.entries| :: t.entries[i].name == s.entries[i].name)
      && (|t.entries| < |s.entries| ==> exists r: nat :: r < |s.entries| && t.entries == Remove(s.entries, r))
  {
  }

  lemma CounterGrows(s: State, op: Op)
    ensures s.counter <= PoolStep(s, op).0.counter <= s.counter + 1
  {
  }

  /** From any pool with unique names, any history keeps them unique as long as no entry of the start
      has the number of a spawn made since. */
  lemma {:induction false} HistoryKeepsNamesUnique(s: State, ops: seq<Op>)
    requires UniqueNames(s.entries) && NotNumbered(s, RunFrom(s, ops).counter)
    ensures NamesFrom(s, RunFrom(s, ops))
  {
    if ops != [] {
      var init := ops[..|ops| - 1];
      CounterGrows(RunFrom(s, init), ops[|ops| - 1]);
      HistoryKeepsNamesUnique(s, init);
      StepKeepsNamesFrom(s, RunFrom(s, init), ops[|ops| - 1]);
    }
  }

  /** The names the counter hands out between two values. */
  function Numbered(from: nat, to: nat): (names: seq<string>)
    requires from <= to
    ensures |names| == to - from && forall k | 0 <= k < |names| :: names[k] == NameOf(from + k + 1)
  {
    seq(to - from, k requires 0 <= k < to - from => NameOf(from + k + 1))
  }

  lemma AllocationNames(s: State, op: Op)
    requires op.AllocateOp?
    ensures var t := PoolStep(s, op).0;
      && s.counter <= t.counter <= s.counter + 1
      && Names(t.entries) == Names(s.entries) + if t.counter == s.counter then [] else [NameOf(t.counter)]
  {
  }

  lemma {:induction false} NamesAfterAllocations(s: State, ops: seq<Op>)
    requires forall i | 0 <= i < |ops| :: ops[i].AllocateOp?
    ensures var t := RunFrom(s, ops);
            s.counter <= t.counter && Names(t.entries) == Names(s.entries) + Numbered(s.counter, t.counter)
  {
    if ops != [] {
      var init := ops[..|ops| - 1];
      NamesAfterAllocations(s, init);
      var t := RunFrom(s, init);
      AllocationNames(t, ops[|ops| - 1]);
      assert Numbered(s.counter, t.counter + 1) == Numbered(s.counter, t.counter) + [NameOf(t.counter + 1)];
    }
  }

  /** Names stay unique through any allocations exactly when no entry of the start has the number of
      one of the spawns they made. After a restart the counter is 0 again: the kept entries must not
      be numbered from 1 to the number of spawns. */
  lemma NamesUniqueIff(s: State, ops: seq<Op>)
    requires UniqueNames(s.entries) && forall i | 0 <= i < |ops| :: ops[i].AllocateOp?
    ensures var t := RunFrom(s, ops);
            UniqueNames(t.entries) <==> NotNumbered(s, t.counter)
  {
    var t := RunFrom(s, ops);
    if NotNumbered(s, t.counter) {
      HistoryKeepsNamesUnique(s, ops);
    } else {
      NamesAfterAllocations(s, ops);
      var j, k :| 0 <= j < |s.entries| && s.counter < k <= t.counter && s.entries[j].name == NameOf(k);
      var l := |s.entries| + k - s.counter - 1;
      assert Names(t.entries)[j] == NameOf(k) && Names(t.entries)[l] == NameOf(k);
      assert t.entries[j].name == t.entries[l].name;
    }
  }

  /** As wired: the liveness check knows only the instances of its own process, and there are none
      when Reconcile runs. The pool starts empty and names stay unique over any later history. */
  lemma WiredRestartStartsEmpty(records: seq<Entry>, ops: seq<Op>)
    ensures Reconcile(EMPTY, records, {}) == EMPTY
    ensures UniqueNames(RunFrom(Reconcile(EMPTY, records, {}), ops).entries)
  {
    NoneRunning(records);
    HistoryKeepsNamesUnique(EMPTY, ops);
  }

  /** What a liveness check that sees an earlier process's instances would give: the counter is not
      restored, so keeping one live instance and allocating a second item repeats its name. */
  lemma RestartReusesName()
    ensures var before := RunPool([AllocateOp("a", 0, true)]);
            var restarted := Reconcile(EMPTY, before.saved, {NameOf(1)});
            var after := Allocate(restarted, "b", 1, true).0;
            |after.entries| == 2 && after.entries[0].name == after.entries[1].name
  {
    var e := FirstAllocation();
    AllRunningKept([e], {NameOf(1)});
    assert Reconcile(EMPTY, [e], {NameOf(1)}) == State([e], 0, [], [], [e]);
    SecondAllocation(e);
  }

  lemma FirstAllocation() returns (e: Entry)
    ensures e == Entry(NameOf(1), Allocated, "a", 0, "bus-" + NameOf(1))
    ensures RunPool([AllocateOp("a", 0, true)]).saved == [e]
  {
    var ops := [AllocateOp("a", 0, true)];
    assert ops[..0] == [];
    e := Entry(NameOf(1), Allocated, "a", 0, "bus-" + NameOf(1));
    assert [] + [e] == [e];
  }

  lemma SecondAllocation(e: Entry)
    requires e.status == Allocated && e.itemID == "a"
    ensures Allocate(State([e], 0, [], [], [e]), "b", 1, true).0.entries
              == [e, Entry(NameOf(1), Allocated, "b", 1, "bus-" + NameOf(1))]
  {
    assert FindItem([e], "b") == 1 && FindIdle([e]) == 1;
  }

  /** The empty item is the exception: it is not active, yet the standby's empty item blocks it. */
  lemma EmptyItemBlocked()
    ensures var ops := [AllocateOp("a", 0, true), DeallocateOp("a")];
            && RunItems(ops) == Items({}, true)
            && Allocate(RunPool(ops), "", 1, true).1 == Err(DuplicateItem)
  {
    var ops := [AllocateOp("a", 0, true), DeallocateOp("a")];
    assert ops[..1] == [AllocateOp("a", 0, true)];
    assert ops[..1][..0] == [];
    var e := Entry(NameOf(1), Allocated, "a", 0, "bus-" + NameOf(1));
    assert [] + [e] == [e];
    assert ops[..1][0] == AllocateOp("a", 0, true) && ops[1] == DeallocateOp("a");
    assert RunPool(ops[..1]) == PoolStep(RunFrom(EMPTY, []), AllocateOp("a", 0, true)).0;
    assert RunPool(ops[..1]).entries == [e];
    assert RunItems(ops[..1]) == Items({"a"}, true);
    assert RunPool(ops).entries == [e.(status := Idle, itemID := "")];
  }

  /** Exactly which operations with the empty item the pool gets wrong: every release or allocation
      while there is a standby, and an allocation that starts an instance. */
  lemma EmptyItemRefinesIff(s: State, a: Items, op: Op)
    requires Refines(s, a) && op.item == ""
    ensures Refines(PoolStep(s, op).0, ItemsStep(a, op).0) && PoolStep(s, op).1 == ItemsStep(a, op).1 <==>
            !(a.started && a.active == {}) && (op.AllocateOp? ==> !op.spawnOk)
  {
    StandbyIsEmptyItem(s, a);
    if a.started && a.active == {} {
      assert PoolStep(s, op).1 != ItemsStep(a, op).1;
    } else if op.AllocateOp? && op.spawnOk {
      EmptySpawnBreaks(s, a, op);
    }
  }

  lemma StandbyIsEmptyItem(s: State, a: Items)
    requires Refines(s, a)
    ensures FindItem(s.entries, "") < |s.entries| <==> a.started && a.active == {}
    ensures FindIdle(s.entries) < |s.entries| <==> a.started && a.active == {}
  {
    if a.started && a.active == {} {
      assert s.entries[0].itemID in ItemIDs(s.entries);
      assert s.entries[0].itemID !in a.active;
    }
    FindItemIff(s.entries, "");
  }

  lemma EmptySpawnBreaks(s: State, a: Items, op: Op)
    requires Refines(s, a) && op.AllocateOp? && op.item == "" && op.spawnOk && !(a.started && a.active == {})
    ensures !Refines(PoolStep(s, op).0, ItemsStep(a, op).0)
  {
    StandbyIsEmptyItem(s, a);
    var t := PoolStep(s, op).0;
    assert t.entries[|s.entries|].itemID == "" && t.entries[|s.entries|].status == Allocated;
  }
}
