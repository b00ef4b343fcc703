/** The Kanban queue runner: reconcile finished items, count free slots, launch ready items in
    stable priority order.

    The board lists items in any order; the order it gives is the tie-break. Task states, the clock,
    the tasks created by dispatching and the board's update failures are fixed during one tick. */
module QueueRunner {
  import opened Wrappers

  datatype Status = Backlog | Queued | InProgress | Blocked | Done | Errored

  datatype TaskStatus = TaskActive | TaskSucceeded | TaskFailed | TaskBlocked | TaskErrored

  datatype Task = Task(status: TaskStatus, output: string)

  datatype Item = Item(
    id: string, status: Status, activeTask: string, lastResult: string, lastResultAt: Option<int>,
    queueMode: string, runAt: Option<int>, after: string, requireSuccess: bool,
    queuedAt: Option<int>, createdAt: int)

  type Items = map<string, Item>

  datatype Env = Env(now: int, tasks: map<string, Task>, updateFails: set<string>, dispatched: map<string, string>)

  ghost predicate Keyed(items: Items) {
    forall id | id in items :: items[id].id == id
  }

  // ---------------------------------------------------------------- one item at a time

  function FinishedAs(t: Task): Option<Status> {
    match t.status
    case TaskActive => None
    case TaskSucceeded => Some(Done)
    case TaskFailed => Some(Errored)
    case TaskBlocked => Some(Blocked)
    case TaskErrored => Some(Errored)
  }

  function ReconcileItem(item: Item, env: Env): Item {
    if item.activeTask == "" || item.activeTask !in env.tasks then item
    else
      var task := env.tasks[item.activeTask];
      match FinishedAs(task)
      case None => item
      case Some(status) =>
        if item.id in env.updateFails then item
        else item.(status := status, activeTask := "", lastResultAt := Some(env.now),
                   lastResult := if task.output != "" then task.output else item.lastResult)
  }

  function Reconciled(items: Items, env: Env): Items {
    map id | id in items :: if items[id].status == InProgress then ReconcileItem(items[id], env) else items[id]
  }

  predicate PredecessorSettled(items: Items, item: Item) {
    && item.after in items
    && (items[item.after].status == Done || (!item.requireSuccess && items[item.after].status == Errored))
  }

  predicate TimeReached(item: Item, now: int) {
    item.runAt.None? || now >= item.runAt.value
  }

  predicate IsReady(items: Items, item: Item, now: int) {
    if item.queueMode == "asap" || item.queueMode == "" then true
    else if item.queueMode == "run_at" then item.runAt.Some? && now >= item.runAt.value
    else if item.queueMode == "run_after" then item.after == "" || PredecessorSettled(items, item)
    else if item.queueMode == "run_when" then
      TimeReached(item, now) && (item.after == "" || PredecessorSettled(items, item))
    else false
  }

  /** The item as launch leaves it: in progress, its queue settings cleared, its task recorded. */
  function LaunchedItem(item: Item, env: Env): Item {
    var started := item.(status := InProgress, queueMode := "", runAt := None, after := "", queuedAt := None);
    if item.id in env.dispatched then started.(activeTask := env.dispatched[item.id]) else started
  }

  // ---------------------------------------------------------------- priority order

  predicate IsAsap(item: Item) {
    item.queueMode == "asap" || item.queueMode == ""
  }

  function QueuedAt(item: Item): int {
    if item.queuedAt.Some? then item.queuedAt.value else item.createdAt
  }

  /** The comparison handed to the sort. */
  predicate Less(a: Item, b: Item) {
    if IsAsap(a) && !IsAsap(b) then true
    else if !IsAsap(a) && IsAsap(b) then false
    else QueuedAt(a) < QueuedAt(b)
  }

  /** Inserts an item behind everything it is not less than. */
  function Insert(sorted: seq<Item>, x: Item): (r: seq<Item>)
    ensures |r| == |sorted| + 1
  {
    if sorted == [] || !Less(x, sorted[|sorted| - 1]) then sorted + [x]
    else Insert(sorted[..|sorted| - 1], x) + [sorted[|sorted| - 1]]
  }

  /** sort.SliceStable. */
  function StableSort(items: seq<Item>): (r: seq<Item>)
    ensures |r| == |items|
  {
    if items == [] then [] else Insert(StableSort(items[..|items| - 1]), items[|items| - 1])
  }

  ghost predicate Distinct(items: seq<Item>) {
    forall i, j | 0 <= i < j < |items| :: items[i].id != items[j].id
  }

  function IndexOf(items: seq<Item>, x: Item): (i: nat)
    ensures i <= |items| && (i < |items| <==> x in items)
    ensures i < |items| ==> items[i] == x
  {
    if items == [] || items[0] == x then 0 else 1 + IndexOf(items[1..], x)
  }

  /** Priority first, then the order of the listing. */
  predicate Precedes(listing: seq<Item>, a: Item, b: Item) {
    Less(a, b) || (!Less(b, a) && IndexOf(listing, a) < IndexOf(listing, b))
  }

  // ---------------------------------------------------------------- the tick

  /** The first `slots` members of `eligible` along the order. */
  function FirstOf(order: seq<Item>, eligible: set<string>, slots: nat): seq<string>
    decreases |order|
  {
    if order == [] || slots == 0 then []
    else if order[0].id in eligible then [order[0].id] + FirstOf(order[1..], eligible, slots - 1)
    else FirstOf(order[1..], eligible, slots)
  }

  function Launch(items: Items, ids: seq<string>, env: Env): Items {
    map id | id in items :: if id in ids then LaunchedItem(items[id], env) else items[id]
  }

  function InProgressIds(items: Items): set<string> {
    set id | id in items && items[id].status == InProgress
  }

  /** Ready, and the board will take the update. */
  function Eligible(items: Items, env: Env): set<string> {
    set id | id in items && items[id].status == Queued && IsReady(items, items[id], env.now) && id !in env.updateFails
  }

  function Limit(maxConcurrent: int): (n: nat)
    ensures n > 0
  {
    if maxConcurrent > 0 then maxConcurrent else 3
  }

  function Slots(items: Items, maxConcurrent: int): nat {
    var free := Limit(maxConcurrent) - |InProgressIds(items)|;
    if free > 0 then free else 0
  }

  ghost predicate IsListing(items: Items, status: Status, listing: seq<Item>) {
    && Distinct(listing)
    && (forall i | 0 <= i < |listing| ::
          listing[i].id in items && items[listing[i].id] == listing[i] && listing[i].status == status)
    && (forall id | id in items && items[id].status == status :: items[id] in listing)
  }

  /** What one tick does to the board, given the order in which the board listed its queued items. */
  function Tick(items: Items, listing: seq<Item>, maxConcurrent: int, env: Env): Items {
    var r := Reconciled(items, env);
    Launch(r, FirstOf(StableSort(listing), Eligible(r, env), Slots(r, maxConcurrent)), env)
  }

  class Board {
    var items: map<string, Item>

    method List(status: Status) returns (listing: seq<Item>)
      requires Keyed(items)
      ensures IsListing(items, status, listing)
    {
      listing := [];
      var todo := items.Keys;
      while todo != {}
        invariant todo <= items.Keys
        invariant forall i | 0 <= i < |listing| ::
          listing[i].id in items && listing[i].id !in todo &&
          items[listing[i].id] == listing[i] && listing[i].status == status
        invariant Distinct(listing)
        invariant forall id | id in items && id !in todo && items[id].status == status :: items[id] in listing
        decreases todo
      {
        var id :| id in todo;
        todo := todo - {id};
        if items[id].status == status {
          listing := listing + [items[id]];
        }
      }
    }

    method Update(item: Item, env: Env) returns (ok: bool)
      modifies this
      ensures ok <==> item.id in old(items) && item.id !in env.updateFails
      ensures items == if ok then old(items)[item.id := item] else old(items)
    {
      if item.id !in items || item.id in env.updateFails {
        return false;
      }
      items := items[item.id := item];
      return true;
    }
  }

  class Runner {
    const board: Board
    const maxConcurrent: int

    constructor (board: Board, maxConcurrent: int)
      ensures this.board == board && this.maxConcurrent == maxConcurrent
    {
      this.board, this.maxConcurrent := board, maxConcurrent;
    }

    method Reconcile(env: Env)
      requires Keyed(board.items)
      modifies board
      ensures Keyed(board.items) && board.items == Reconciled(old(board.items), env)
    {
      var listing := board.List(InProgress);
      for i := 0 to |listing|
        invariant board.items.Keys == old(board.items).Keys
        invariant forall j | 0 <= j < i :: board.items[listing[j].id] == ReconcileItem(listing[j], env)
        invariant forall j | i <= j < |listing| :: board.items[listing[j].id] == listing[j]
        invariant forall id | id in board.items && old(board.items)[id].status != InProgress ::
                    board.items[id] == old(board.items)[id]
      {
        var item := listing[i];
        if item.activeTask == "" {
          continue;
        }
        if item.activeTask !in env.tasks {
          continue;
        }
        var task := env.tasks[item.activeTask];
        var status := FinishedAs(task);
        if status.Some? {
          item := item.(status := status.value, activeTask := "");
          if task.output != "" {
            item := item.(lastResult := task.output);
          }
          item := item.(lastResultAt := Some(env.now));
          var _ := board.Update(item, env);
        }
      }
      ReconciledItemwise(old(board.items), board.items, listing, env);
    }

    /** Moves an item from queued to in progress and dispatches it; the dispatch's own failure is
        only logged. */
    method LaunchOne(queued: Item, env: Env) returns (ok: bool)
      modifies board
      ensures ok <==> queued.id in old(board.items) && queued.id !in env.updateFails
      ensures board.items == if ok then old(board.items)[queued.id := LaunchedItem(queued, env)] else old(board.items)
    {
      var item := queued.(status := InProgress, queueMode := "", runAt := None, after := "", queuedAt := None);
      ok := board.Update(item, env);
      if !ok {
        return;
      }
      if item.id in env.dispatched {
        var _ := board.Update(item.(activeTask := env.dispatched[item.id]), env);
      }
    }

    method RunTick(env: Env) returns (ghost listing: seq<Item>)
      requires Keyed(board.items)
      modifies board
      ensures var r := Reconciled(old(board.items), env);
              Slots(r, maxConcurrent) > 0 ==> IsListing(r, Queued, listing)
      ensures board.items == Tick(old(board.items), listing, maxConcurrent, env)
    {
      Reconcile(env);
      ghost var r := board.items;
      var inProgress := board.List(InProgress);
      ListingCounts(r, InProgress, inProgress);
      var slots := Limit(maxConcurrent) - |inProgress|;
      listing := [];
      if slots <= 0 {
        return;
      }
      var queued := board.List(Queued);
      listing := queued;
      if |queued| == 0 {
        return;
      }
      var order := StableSort(queued);
      SortedListing(r, queued);
      LaunchInOrder(order, slots, env);
    }

    /** The loop over the sorted items. */
    method LaunchInOrder(order: seq<Item>, slots: nat, env: Env)
      requires Distinct(order)
      requires forall i | 0 <= i < |order| ::
                 order[i].id in board.items && board.items[order[i].id] == order[i] && order[i].status == Queued
      modifies board
      ensures board.items == Launch(old(board.items), FirstOf(order, Eligible(old(board.items), env), slots), env)
    {
      ghost var r := board.items;
      ghost var eligible := Eligible(r, env);
      ghost var launched: seq<string> := [];
      var dispatched := 0;
      var k := 0;
      while k < |order|
        invariant k <= |order| && dispatched == |launched| <= slots
        invariant launched + FirstOf(order[k..], eligible, slots - dispatched) == FirstOf(order, eligible, slots)
        invariant forall id | id in launched :: exists i :: 0 <= i < k && order[i].id == id
        invariant board.items == Launch(r, launched, env)
      {
        if dispatched >= slots {
          break;
        }
        var item := order[k];
        assert order[k..][0] == item && order[k..][1..] == order[k + 1..];
        assert item.id !in launched;
        forall id | id in launched ensures id in r && r[id].status == Queued {
          var i :| 0 <= i < k && order[i].id == id;
        }
        ReadyUnaffected(r, launched, item, env);
        k := k + 1;
        if !IsReady(board.items, item, env.now) {
          continue;
        }
        var ok := LaunchOne(item, env);
        if ok {
          dispatched := dispatched + 1;
          launched := launched + [item.id];
          assert board.items == Launch(r, launched, env);
        }
      }
      assert FirstOf(order[k..], eligible, slots - dispatched) == [];
      assert launched + [] == launched;
    }
  }

  // ---------------------------------------------------------------- listings and sorting

  lemma ReconciledItemwise(before: Items, after: Items, listing: seq<Item>, env: Env)
    requires Keyed(before) && IsListing(before, InProgress, listing) && after.Keys == before.Keys
    requires forall j | 0 <= j < |listing| :: after[listing[j].id] == ReconcileItem(listing[j], env)
    requires forall id | id in after && before[id].status != InProgress :: after[id] == before[id]
    ensures after == Reconciled(before, env)
  {
    forall id | id in after ensures after[id] == Reconciled(before, env)[id] {
      if before[id].status == InProgress {
        assert before[id] in listing;
        var j :| 0 <= j < |listing| && listing[j] == before[id];
        assert listing[j].id in before && before[listing[j].id] == listing[j];
      }
    }
  }

  lemma {:induction false} DistinctCounts(listing: seq<Item>)
    requires Distinct(listing)
    ensures |set i | 0 <= i < |listing| :: listing[i].id| == |listing|
  {
    if listing != [] {
      var init, last := listing[..|listing| - 1], listing[|listing| - 1];
      DistinctCounts(init);
      var ids := set i | 0 <= i < |init| :: init[i].id;
      assert forall i | 0 <= i < |init| :: init[i] == listing[i];
      assert (set i | 0 <= i < |listing| :: listing[i].id) == ids + {last.id};
    }
  }

  lemma ListingCounts(items: Items, status: Status, listing: seq<Item>)
    requires Keyed(items) && IsListing(items, status, listing)
    ensures |listing| == |set id | id in items && items[id].status == status|
  {
    DistinctCounts(listing);
    assert (set i | 0 <= i < |listing| :: listing[i].id) == set id | id in items && items[id].status == status;
  }

  /** Launching queued items settles no one's predecessor. */
  lemma ReadyUnaffected(items: Items, ids: seq<string>, item: Item, env: Env)
    requires forall id | id in ids :: id in items && items[id].status == Queued
    ensures IsReady(Launch(items, ids, env), item, env.now) == IsReady(items, item, env.now)
  {
  }

  lemma {:induction false} InsertSplits(sorted: seq<Item>, x: Item) returns (k: nat)
    ensures k <= |sorted| && Insert(sorted, x) == sorted[..k] + [x] + sorted[k..]
    ensures k > 0 ==> !Less(x, sorted[k - 1])
    ensures forall i | k <= i < |sorted| :: Less(x, sorted[i])
  {
    if sorted == [] || !Less(x, sorted[|sorted| - 1]) {
      k := |sorted|;
    } else {
      var init := sorted[..|sorted| - 1];
      k := InsertSplits(init, x);
      assert init[..k] == sorted[..k] && init[k..] + [sorted[|sorted| - 1]] == sorted[k..];
    }
  }

  lemma InsertPermutes(sorted: seq<Item>, x: Item)
    ensures multiset(Insert(sorted, x)) == multiset(sorted) + multiset{x}
  {
    var k := InsertSplits(sorted, x);
    assert sorted == sorted[..k] + sorted[k..];
    MultisetAround(sorted[..k], x, sorted[k..]);
  }

  lemma MultisetAround(a: seq<Item>, x: Item, b: seq<Item>)
    ensures multiset(a + [x] + b) == multiset(a + b) + multiset{x}
  {
    assert multiset(a + [x]) == multiset(a) + multiset{x};
    assert multiset((a + [x]) + b) == multiset(a + [x]) + multiset(b);
  }

  lemma {:induction false} SortPermutes(items: seq<Item>)
    ensures multiset(StableSort(items)) == multiset(items)
  {
    if items != [] {
      var init, last := items[..|items| - 1], items[|items| - 1];
      SortPermutes(init);
      InsertPermutes(StableSort(init), last);
      assert items == init + [last];
    }
  }

  lemma SortKeepsMember(items: seq<Item>, x: Item)
    ensures x in StableSort(items) <==> x in items
  {
    SortPermutes(items);
    assert x in multiset(StableSort(items)) <==> x in multiset(items);
  }

  lemma SortKeepsMembers(items: seq<Item>)
    ensures forall x :: x in StableSort(items) <==> x in items
  {
    forall x ensures x in StableSort(items) <==> x in items {
      SortKeepsMember(items, x);
    }
  }

  lemma {:induction false} IndexInPrefix(items: seq<Item>, last: Item, x: Item)
    ensures x in items ==> IndexOf(items + [last], x) == IndexOf(items, x) < |items|
    ensures x !in items && x == last ==> IndexOf(items + [last], x) == |items|
  {
    if items != [] && items[0] != x {
      assert (items + [last])[1..] == items[1..] + [last];
      IndexInPrefix(items[1..], last, x);
    }
  }

  ghost predicate InOrder(listing: seq<Item>, sorted: seq<Item>) {
    forall i, j | 0 <= i < j < |sorted| :: Precedes(listing, sorted[i], sorted[j])
  }

  lemma OrderExtends(listing: seq<Item>, last: Item, sorted: seq<Item>)
    requires InOrder(listing, sorted) && forall x | x in sorted :: x in listing
    ensures InOrder(listing + [last], sorted)
  {
    forall i | 0 <= i < |sorted| ensures IndexOf(listing + [last], sorted[i]) == IndexOf(listing, sorted[i]) {
      IndexInPrefix(listing, last, sorted[i]);
    }
  }

  lemma NewestComesLast(init: seq<Item>, x: Item, y: Item)
    requires y in init && x !in init
    ensures IndexOf(init + [x], y) < IndexOf(init + [x], x)
  {
    IndexInPrefix(init, x, y);
    IndexInPrefix(init, x, x);
  }

  lemma AheadOfInserted(listing: seq<Item>, a: Item, b: Item, x: Item)
    requires a == b || Precedes(listing, a, b)
    requires !Less(x, b) && IndexOf(listing, a) < IndexOf(listing, x)
    ensures Precedes(listing, a, x)
  {
  }

  lemma InsertKeepsOrder(listing: seq<Item>, sorted: seq<Item>, x: Item)
    requires InOrder(listing, sorted)
    requires forall y | y in sorted :: IndexOf(listing, y) < IndexOf(listing, x)
    ensures InOrder(listing, Insert(sorted, x))
  {
    var k := InsertSplits(sorted, x);
    forall i | 0 <= i < k ensures Precedes(listing, sorted[i], x) {
      assert i < k - 1 ==> Precedes(listing, sorted[i], sorted[k - 1]);
      AheadOfInserted(listing, sorted[i], sorted[k - 1], x);
    }
    OrderedAround(listing, sorted, x, k);
  }

  lemma OrderedAround(listing: seq<Item>, sorted: seq<Item>, x: Item, k: nat)
    requires k <= |sorted| && InOrder(listing, sorted)
    requires forall i | 0 <= i < k :: Precedes(listing, sorted[i], x)
    requires forall i | k <= i < |sorted| :: Less(x, sorted[i])
    ensures InOrder(listing, sorted[..k] + [x] + sorted[k..])
  {
    var r := sorted[..k] + [x] + sorted[k..];
    forall i, j | 0 <= i < j < |r| ensures Precedes(listing, r[i], r[j]) {
      if i == k {
        assert Precedes(listing, x, sorted[j - 1]);
      } else if j == k {
        assert Precedes(listing, sorted[i], x);
      } else {
        assert Precedes(listing, sorted[if i < k then i else i - 1], sorted[if j < k then j else j - 1]);
      }
    }
  }

  /** The sort's result is in priority order with the listing as tie-break: that is stability. */
  lemma {:induction false} SortOrders(listing: seq<Item>)
    requires Distinct(listing)
    ensures InOrder(listing, StableSort(listing))
  {
    if listing != [] {
      var init, x := listing[..|listing| - 1], listing[|listing| - 1];
      SortOrders(init);
      SortKeepsMembers(init);
      assert listing == init + [x];
      var sorted := StableSort(init);
      OrderExtends(init, x, sorted);
      assert x !in init;
      forall y | y in sorted ensures IndexOf(listing, y) < IndexOf(listing, x) {
        NewestComesLast(init, x, y);
      }
      InsertKeepsOrder(listing, sorted, x);
    }
  }

  lemma SortedDistinct(listing: seq<Item>)
    requires Distinct(listing)
    ensures Distinct(StableSort(listing))
  {
    SortOrders(listing);
    SortKeepsMembers(listing);
    var sorted := StableSort(listing);
    forall i, j | 0 <= i < j < |sorted| ensures sorted[i].id != sorted[j].id {
      assert Precedes(listing, sorted[i], sorted[j]);
      assert sorted[i] in listing && sorted[j] in listing;
    }
  }

  lemma SortedListing(items: Items, listing: seq<Item>)
    requires IsListing(items, Queued, listing)
    ensures Distinct(StableSort(listing))
    ensures forall i | 0 <= i < |StableSort(listing)| ::
              var x := StableSort(listing)[i]; x.id in items && items[x.id] == x && x.status == Queued
  {
    SortedDistinct(listing);
    SortKeepsMembers(listing);
    forall i | 0 <= i < |StableSort(listing)| ensures StableSort(listing)[i] in listing {
      assert StableSort(listing)[i] in StableSort(listing);
    }
  }

  // ---------------------------------------------------------------- which items a tick launches

  /** The eligible items ahead of position p. */
  function Ahead(order: seq<Item>, eligible: set<string>, p: nat): set<string>
    requires p <= |order|
  {
    set q | 0 <= q < p && order[q].id in eligible :: order[q].id
  }

  lemma AheadOfTail(order: seq<Item>, eligible: set<string>, p: nat)
    requires Distinct(order) && 0 < p < |order|
    ensures |Ahead(order, eligible, p)| ==
              |Ahead(order[1..], eligible, p - 1)| + if order[0].id in eligible then 1 else 0
  {
    var head, tail := order[0], order[1..];
    var rest := Ahead(tail, eligible, p - 1);
    forall id | id in Ahead(order, eligible, p) && id != head.id ensures id in rest {
      var q :| 0 <= q < p && order[q].id in eligible && order[q].id == id;
      assert tail[q - 1] == order[q];
    }
    forall id | id in rest ensures id in Ahead(order, eligible, p) && id != head.id {
      var q :| 0 <= q < p - 1 && tail[q].id in eligible && tail[q].id == id;
      assert order[q + 1] == tail[q];
    }
    if head.id in eligible {
      assert head.id in Ahead(order, eligible, p);
      assert Ahead(order, eligible, p) == rest + {head.id};
    } else {
      assert Ahead(order, eligible, p) == rest;
    }
  }

  lemma {:induction false} FirstOfIff(order: seq<Item>, eligible: set<string>, slots: nat, p: nat)
    requires Distinct(order) && p < |order|
    ensures order[p].id in FirstOf(order, eligible, slots) <==>
              order[p].id in eligible && |Ahead(order, eligible, p)| < slots
    decreases |order|
  {
    var tail := order[1..];
    FirstOfOnlyEligible(order, eligible, slots);
    if slots == 0 {
    } else if p == 0 {
      HeadNotRepeated(order, eligible, slots);
    } else {
      AheadOfTail(order, eligible, p);
      assert tail[p - 1] == order[p];
      FirstOfIff(tail, eligible, if order[0].id in eligible then slots - 1 else slots, p - 1);
    }
  }

  lemma HeadNotRepeated(order: seq<Item>, eligible: set<string>, slots: nat)
    requires order != [] && slots > 0
    ensures Ahead(order, eligible, 0) == {}
    ensures order[0].id in FirstOf(order, eligible, slots) <==> order[0].id in eligible
  {
    FirstOfOnlyEligible(order, eligible, slots);
  }

  lemma {:induction false} FirstOfOnlyEligible(order: seq<Item>, eligible: set<string>, slots: nat)
    ensures forall id | id in FirstOf(order, eligible, slots) ::
              id in eligible && exists i :: 0 <= i < |order| && order[i].id == id
    ensures |FirstOf(order, eligible, slots)| <= slots
    decreases |order|
  {
    if order != [] && slots > 0 {
      FirstOfOnlyEligible(order[1..], eligible, if order[0].id in eligible then slots - 1 else slots);
      assert forall i | 0 <= i < |order| - 1 :: order[1..][i] == order[i + 1];
    }
  }

  /** The eligible items that come before x by priority and listing. */
  function Before(listing: seq<Item>, eligible: set<string>, x: Item): set<string> {
    set y | y in listing && y.id in eligible && Precedes(listing, y, x) :: y.id
  }

  lemma AheadIsBefore(listing: seq<Item>, eligible: set<string>, p: nat)
    requires Distinct(listing) && p < |StableSort(listing)|
    ensures Ahead(StableSort(listing), eligible, p) == Before(listing, eligible, StableSort(listing)[p])
  {
    var order := StableSort(listing);
    SortOrders(listing);
    SortKeepsMembers(listing);
    forall id | id in Ahead(order, eligible, p) ensures id in Before(listing, eligible, order[p]) {
      var q :| 0 <= q < p && order[q].id in eligible && order[q].id == id;
      assert order[q] in listing;
    }
    forall id | id in Before(listing, eligible, order[p]) ensures id in Ahead(order, eligible, p) {
      var y :| y in listing && y.id in eligible && Precedes(listing, y, order[p]) && y.id == id;
      assert y in order;
      var q :| 0 <= q < |order| && order[q] == y;
      assert q > p ==> Precedes(listing, order[p], order[q]);
    }
  }

  /** A tick launches a listed item exactly when the item is ready, its update is taken, and fewer
      than `slots` such items come before it by priority and listing order. */
  lemma LaunchedIff(items: Items, listing: seq<Item>, maxConcurrent: int, env: Env, x: Item)
    requires Keyed(items)
    requires var r := Reconciled(items, env); IsListing(r, Queued, listing) && x in listing
    ensures var r := Reconciled(items, env);
            var after := Tick(items, listing, maxConcurrent, env);
            var eligible := Eligible(r, env);
      && x.id in after
      && (after[x.id] == LaunchedItem(x, env) <==>
            x.id in eligible && |Before(listing, eligible, x)| < Slots(r, maxConcurrent))
      && (after[x.id] == LaunchedItem(x, env) || after[x.id] == x)
  {
    var r := Reconciled(items, env);
    var order := StableSort(listing);
    SortKeepsMembers(listing);
    SortedDistinct(listing);
    assert x in order;
    var p :| 0 <= p < |order| && order[p] == x;
    FirstOfIff(order, Eligible(r, env), Slots(r, maxConcurrent), p);
    AheadIsBefore(listing, Eligible(r, env), p);
  }

  /** Items that are not queued after reconciling are left as they are. */
  lemma OthersUntouched(items: Items, listing: seq<Item>, maxConcurrent: int, env: Env, id: string)
    requires Keyed(items)
    requires var r := Reconciled(items, env); IsListing(r, Queued, listing) && id in r && r[id].status != Queued
    ensures Tick(items, listing, maxConcurrent, env)[id] == Reconciled(items, env)[id]
  {
    var r := Reconciled(items, env);
    FirstOfOnlyEligible(StableSort(listing), Eligible(r, env), Slots(r, maxConcurrent));
  }

  // ---------------------------------------------------------------- over any number of ticks

  /** Between ticks others may do anything to the board except promote items. */
  datatype Change = External | Ticked(listing: seq<Item>, env: Env)

  ghost predicate IsRun(maxConcurrent: int, boards: seq<Items>, changes: seq<Change>) {
    && |boards| == |changes| + 1
    && (forall n | 0 <= n < |boards| :: Keyed(boards[n]))
    && forall n {:trigger changes[n]} | 0 <= n < |changes| ::
         Moves(maxConcurrent, boards[n], changes[n], boards[n + 1])
  }

  ghost predicate Moves(maxConcurrent: int, before: Items, change: Change, after: Items) {
    match change
    case External => InProgressIds(after) <= InProgressIds(before)
    case Ticked(listing, env) =>
      (Slots(Reconciled(before, env), maxConcurrent) > 0 ==>
        IsListing(Reconciled(before, env), Queued, listing))
      && after == Tick(before, listing, maxConcurrent, env)
  }

  function Max(a: int, b: int): int { if a < b then b else a }

  lemma SubsetCounts<T>(a: set<T>, b: set<T>)
    requires a <= b
    ensures |a| <= |b|
  {
    assert b == a + (b - a);
  }

  lemma {:induction false} SeqAsSet(ids: seq<string>)
    ensures |set id | id in ids| <= |ids|
  {
    if ids != [] {
      SeqAsSet(ids[1..]);
      assert (set id | id in ids) == (set id | id in ids[1..]) + {ids[0]};
    }
  }

  /** One tick never takes the in-progress count past the larger of the limit and what it was. */
  lemma TickBounded(items: Items, listing: seq<Item>, maxConcurrent: int, env: Env)
    ensures |InProgressIds(Tick(items, listing, maxConcurrent, env))| <=
              Max(Limit(maxConcurrent), |InProgressIds(items)|)
  {
    var r := Reconciled(items, env);
    var slots := Slots(r, maxConcurrent);
    var ids := FirstOf(StableSort(listing), Eligible(r, env), slots);
    FirstOfOnlyEligible(StableSort(listing), Eligible(r, env), slots);
    ReconcileFrees(items, env);
    LaunchAdds(r, ids, env);
  }

  lemma ReconcileFrees(items: Items, env: Env)
    ensures |InProgressIds(Reconciled(items, env))| <= |InProgressIds(items)|
  {
    SubsetCounts(InProgressIds(Reconciled(items, env)), InProgressIds(items));
  }

  lemma LaunchAdds(items: Items, ids: seq<string>, env: Env)
    ensures |InProgressIds(Launch(items, ids, env))| <= |InProgressIds(items)| + |ids|
  {
    var launched := set id | id in ids;
    SeqAsSet(ids);
    SubsetCounts(InProgressIds(Launch(items, ids, env)), InProgressIds(items) + launched);
    UnionCounts(InProgressIds(items), launched);
  }

  lemma UnionCounts<T>(a: set<T>, b: set<T>)
    ensures |a + b| <= |a| + |b|
  {
    assert a + b == a + (b - a);
    SubsetCounts(b - a, b);
  }

  lemma {:induction false} LimitHolds(maxConcurrent: int, boards: seq<Items>, changes: seq<Change>, n: nat)
    requires IsRun(maxConcurrent, boards, changes) && n < |boards|
    ensures |InProgressIds(boards[n])| <= Max(Limit(maxConcurrent), |InProgressIds(boards[0])|)
  {
    if n > 0 {
      LimitHolds(maxConcurrent, boards, changes, n - 1);
      match changes[n - 1]
      case External => SubsetCounts(InProgressIds(boards[n]), InProgressIds(boards[n - 1]));
      case Ticked(listing, env) => TickBounded(boards[n - 1], listing, maxConcurrent, env);
    }
  }

  /** Queued items that all wait for a predecessor in the same set. */
  ghost predicate WaitInCircle(items: Items, ids: set<string>) {
    && "" !in ids
    && forall id | id in ids ::
         && id in items && items[id].status == Queued
         && items[id].queueMode in {"run_after", "run_when"}
         && items[id].after in ids
  }

  lemma CircleSurvivesTick(items: Items, listing: seq<Item>, maxConcurrent: int, env: Env, ids: set<string>)
    requires Keyed(items) && WaitInCircle(items, ids)
    ensures var after := Tick(items, listing, maxConcurrent, env);
            forall id | id in ids :: id in after && after[id] == items[id]
  {
    var r := Reconciled(items, env);
    FirstOfOnlyEligible(StableSort(listing), Eligible(r, env), Slots(r, maxConcurrent));
    CircleNotEligible(items, env, ids);
  }

  lemma CircleNotEligible(items: Items, env: Env, ids: set<string>)
    requires WaitInCircle(items, ids)
    ensures var r := Reconciled(items, env);
            forall id | id in ids :: r[id] == items[id] && id !in Eligible(r, env)
  {
    var r := Reconciled(items, env);
    forall id | id in ids ensures r[id] == items[id] && id !in Eligible(r, env) {
      assert r[items[id].after] == items[items[id].after];
      WaitingForQueued(r, items[id], env.now);
    }
  }

  lemma WaitingForQueued(items: Items, item: Item, now: int)
    requires item.queueMode in {"run_after", "run_when"} && item.after != ""
    requires item.after in items && items[item.after].status == Queued
    ensures !IsReady(items, item, now)
  {
  }

  /** Such a set never launches, over any number of ticks in which no one else touches it. */
  lemma {:induction false} CircleNeverLaunches(
      maxConcurrent: int, boards: seq<Items>, changes: seq<Change>, ids: set<string>, n: nat)
    requires IsRun(maxConcurrent, boards, changes) && n < |boards| && WaitInCircle(boards[0], ids)
    requires forall k, id | 0 <= k < |changes| && changes[k].External? && id in ids && id in boards[k] ::
               id in boards[k + 1] && boards[k + 1][id] == boards[k][id]
    ensures forall id | id in ids :: id in boards[n] && boards[n][id] == boards[0][id]
  {
    if n > 0 {
      CircleNeverLaunches(maxConcurrent, boards, changes, ids, n - 1);
      if changes[n - 1].Ticked? {
        CircleSurvivesTick(boards[n - 1], changes[n - 1].listing, maxConcurrent, changes[n - 1].env, ids);
      }
    }
  }

  // ---------------------------------------------------------------- the tick in the board's own terms

  /** A queued item may start: its mode is one the runner knows, its run time is reached where the mode
      has one, and the item it waits for, where the mode waits, is done, or errored if that will do. */
  lemma ReadyMeans(items: Items, x: Item, now: int)
    ensures IsReady(items, x, now) <==>
      && x.queueMode in {"", "asap", "run_at", "run_after", "run_when"}
      && (x.queueMode == "run_at" ==> x.runAt.Some?)
      && (x.queueMode in {"run_at", "run_when"} && x.runAt.Some? ==> x.runAt.value <= now)
      && (x.queueMode in {"run_after", "run_when"} && x.after != "" ==>
            && x.after in items
            && items[x.after].status in {Done, Errored}
            && (x.requireSuccess ==> items[x.after].status == Done))
  {
  }

  /** One listed item comes before another: those that run as soon as possible first, then by the time
      they were queued, or created when that is not known, and at equal times as the board lists them. */
  lemma PrecedesMeans(listing: seq<Item>, i: nat, j: nat)
    requires Distinct(listing) && i < |listing| && j < |listing|
    ensures Precedes(listing, listing[i], listing[j]) <==>
      var (a, b) := (listing[i], listing[j]);
      var (later, laterB) := (a.queueMode !in {"", "asap"}, b.queueMode !in {"", "asap"});
      var at := if a.queuedAt.Some? then a.queuedAt.value else a.createdAt;
      var bt := if b.queuedAt.Some? then b.queuedAt.value else b.createdAt;
      (!later && laterB) || (later == laterB && (at < bt || (at == bt && i < j)))
  {
    IndexIsPosition(listing, i);
    IndexIsPosition(listing, j);
  }

  lemma IndexIsPosition(listing: seq<Item>, i: nat)
    requires Distinct(listing) && i < |listing|
    ensures IndexOf(listing, listing[i]) == i
  {
    OnePosition(listing, IndexOf(listing, listing[i]), i);
  }

  lemma OnePosition(listing: seq<Item>, i: nat, j: nat)
    requires Distinct(listing) && i < |listing| && j < |listing| && listing[i] == listing[j]
    ensures i == j
  {
    assert listing[i].id == listing[j].id;
  }

  /** An item in progress whose task has ended becomes done, errored or blocked as the task did, keeps
      the task's output if there is any, and lets go of the task; every other item is as it was. */
  lemma ReconciledMeans(items: Items, env: Env, id: string)
    requires Keyed(items) && id in items
    ensures var (x, y) := (items[id], Reconciled(items, env)[id]);
      if x.status != InProgress || x.activeTask == "" || x.activeTask !in env.tasks || id in env.updateFails
         || env.tasks[x.activeTask].status == TaskActive
      then y == x
      else
        && (y.status == Done <==> env.tasks[x.activeTask].status == TaskSucceeded)
        && (y.status == Blocked <==> env.tasks[x.activeTask].status == TaskBlocked)
        && (y.status == Errored <==> env.tasks[x.activeTask].status in {TaskFailed, TaskErrored})
        && y.activeTask == "" && y.lastResultAt == Some(env.now)
        && (env.tasks[x.activeTask].output != "" ==> y.lastResult == env.tasks[x.activeTask].output)
        && (env.tasks[x.activeTask].output == "" ==> y.lastResult == x.lastResult)
        && y.(status := x.status, activeTask := x.activeTask, lastResult := x.lastResult,
              lastResultAt := x.lastResultAt) == x
  {
  }

  /** A launched item is in progress with its queue settings gone and holds the task it was given. */
  ghost predicate IsLaunched(x: Item, y: Item, env: Env) {
    && y.status == InProgress
    && y.queueMode == "" && y.runAt.None? && y.after == "" && y.queuedAt.None?
    && y.activeTask == (if x.id in env.dispatched then env.dispatched[x.id] else x.activeTask)
    && y.(status := x.status, queueMode := x.queueMode, runAt := x.runAt, after := x.after, queuedAt := x.queuedAt,
          activeTask := x.activeTask) == x
  }

  /** The listed items that may start, whose update the board takes, and that come before item j. */
  ghost function StartableBefore(items: Items, listing: seq<Item>, env: Env, j: nat): set<string>
    requires j < |listing|
  {
    set i | 0 <= i < |listing| && IsReady(items, listing[i], env.now) && listing[i].id !in env.updateFails
            && Precedes(listing, listing[i], listing[j]) :: listing[i].id
  }

  lemma StartableIsBefore(items: Items, listing: seq<Item>, env: Env, j: nat)
    requires IsListing(items, Queued, listing) && j < |listing|
    ensures StartableBefore(items, listing, env, j) == Before(listing, Eligible(items, env), listing[j])
  {
    forall id | id in Before(listing, Eligible(items, env), listing[j])
      ensures id in StartableBefore(items, listing, env, j)
    {
      var y :| y in listing && y.id in Eligible(items, env) && Precedes(listing, y, listing[j]) && y.id == id;
      var i :| 0 <= i < |listing| && listing[i] == y;
    }
  }

  /** Over any run, what a tick does to an item that was queued: it is launched exactly when it is
      listed, its update is taken, its run time is reached and what it waits for settled, as far as its
      mode looks at them, and together with the items in progress fewer than the limit, three by
      default, come before it. Otherwise it stays as it was. */
  lemma TickLaunchesIff(maxConcurrent: int, boards: seq<Items>, changes: seq<Change>, n: nat, id: string)
    requires IsRun(maxConcurrent, boards, changes) && n < |changes| && changes[n].Ticked?
    requires id in boards[n] && boards[n][id].status == Queued
    ensures var (x, env, listing) := (boards[n][id], changes[n].env, changes[n].listing);
            var r := Reconciled(boards[n], env);
      && id in boards[n + 1]
      && (boards[n + 1][id] == x || IsLaunched(x, boards[n + 1][id], env))
      && (boards[n + 1][id] != x <==> exists j: nat ::
            && j < |listing| && listing[j] == x
            && id !in env.updateFails
            && x.queueMode in {"", "asap", "run_at", "run_after", "run_when"}
            && (x.queueMode == "run_at" ==> x.runAt.Some?)
            && (x.queueMode in {"run_at", "run_when"} && x.runAt.Some? ==> x.runAt.value <= env.now)
            && (x.queueMode in {"run_after", "run_when"} && x.after != "" ==>
                  && x.after in r
                  && (r[x.after].status == Done || (r[x.after].status == Errored && !x.requireSuccess)))
            && |StartableBefore(r, listing, env, j)| + |InProgressIds(r)|
                 < (if maxConcurrent > 0 then maxConcurrent else 3))
  {
    var (x, env, listing) := (boards[n][id], changes[n].env, changes[n].listing);
    var r := Reconciled(boards[n], env);
    ReadyMeans(r, x, env.now);
    if Slots(r, maxConcurrent) > 0 {
      assert r[id] in listing;
      var k: nat :| k < |listing| && listing[k] == x;
      LaunchedIff(boards[n], listing, maxConcurrent, env, x);
      StartableIsBefore(r, listing, env, k);
      forall j: nat | j < |listing| && listing[j] == x ensures j == k {
        OnePosition(listing, j, k);
      }
    }
  }

  /** Over any run no item starts early: not before its run time, and not before the item that it waits
      for is done, or errored where success is not asked for; one with an unknown mode never starts. */
  lemma NeverLaunchedEarly(maxConcurrent: int, boards: seq<Items>, changes: seq<Change>, n: nat, id: string)
    requires IsRun(maxConcurrent, boards, changes) && n < |changes| && changes[n].Ticked?
    requires id in boards[n] && boards[n][id].status == Queued
    requires id in boards[n + 1] && boards[n + 1][id] != boards[n][id]
    ensures var (x, now) := (boards[n][id], changes[n].env.now);
      && x.queueMode in {"", "asap", "run_at", "run_after", "run_when"}
      && (x.queueMode in {"run_at", "run_when"} && x.runAt.Some? ==> x.runAt.value <= now)
      && (x.queueMode == "run_at" ==> x.runAt.Some?)
      && (x.queueMode in {"run_after", "run_when"} && x.after != "" ==>
            && x.after in boards[n + 1]
            && (boards[n + 1][x.after].status == Done
                || (boards[n + 1][x.after].status == Errored && !x.requireSuccess)))
  {
    var (x, env, listing) := (boards[n][id], changes[n].env, changes[n].listing);
    TickLaunchesIff(maxConcurrent, boards, changes, n, id);
    ReadyMeans(Reconciled(boards[n], env), x, env.now);
    if x.queueMode in {"run_after", "run_when"} && x.after != "" {
      SettledStays(maxConcurrent, boards, changes, n, x.after);
    }
  }

  lemma SettledStays(maxConcurrent: int, boards: seq<Items>, changes: seq<Change>, n: nat, id: string)
    requires IsRun(maxConcurrent, boards, changes) && n < |changes| && changes[n].Ticked?
    requires var r := Reconciled(boards[n], changes[n].env); id in r && r[id].status != Queued
    ensures id in boards[n + 1] && boards[n + 1][id] == Reconciled(boards[n], changes[n].env)[id]
  {
    if Slots(Reconciled(boards[n], changes[n].env), maxConcurrent) > 0 {
      OthersUntouched(boards[n], changes[n].listing, maxConcurrent, changes[n].env, id);
    }
  }
}
