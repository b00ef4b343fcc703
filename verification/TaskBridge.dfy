/** The Buzz task bridge: event deduplication with a lazily evicted cache, roll-back of a failed
    dispatch, and the threads each persona has dispatched in.

    The clock is a parameter of each operation. Chat-task detection and the dispatcher are
    represented by their outcomes. */
module TaskBridge {
  import opened Wrappers

  type Seen = map<string, int>

  // ---------------------------------------------------------------- the cache, one operation each

  /** A mark counts while its age is at most the TTL; a TTL of zero or less never expires. */
  predicate Live(ttl: int, mark: int, now: int) {
    ttl <= 0 || now - mark <= ttl
  }

  function Evict(ttl: int, seen: Seen, now: int): Seen {
    map id | id in seen && Live(ttl, seen[id], now) :: seen[id]
  }

  function CheckAndMark(ttl: int, seen: Seen, id: string, now: int): (Seen, bool) {
    var kept := Evict(ttl, seen, now);
    if id in kept then (kept, true) else (kept[id := now], false)
  }

  function Unmark(seen: Seen, id: string): Seen {
    if id == "" then seen else seen - {id}
  }

  type Threads = map<string, int>

  function ThreadKey(bot: string, thread: string): string {
    bot + "|" + thread
  }

  function MarkThread(threads: Threads, bot: string, thread: string, now: int): Threads {
    if thread == "" then threads else threads[ThreadKey(bot, thread) := now]
  }

  predicate Knows(threads: Threads, bot: string, root: string) {
    root != "" && ThreadKey(bot, root) in threads
  }

  // ---------------------------------------------------------------- the bridge

  datatype ChatOutcome = NotWired | DetectionFailed | Handled | NotHandled

  datatype Outcome = Duplicate | Failed | Accepted

  class BuzzTaskBridge {
    const dedupTTL: int
    var seenEvts: map<string, int>
    var dispatchedThreads: map<string, int>

    constructor (dedupTTL: int)
      ensures this.dedupTTL == dedupTTL && seenEvts == map[] && dispatchedThreads == map[]
    {
      this.dedupTTL := dedupTTL;
      seenEvts, dispatchedThreads := map[], map[];
    }

    method CheckAndMarkSeen(eventID: string, now: int) returns (seen: bool)
      modifies this`seenEvts
      ensures (seenEvts, seen) == CheckAndMark(dedupTTL, old(seenEvts), eventID, now)
    {
      var todo := seenEvts.Keys;
      while todo != {}
        invariant todo <= seenEvts.Keys <= old(seenEvts).Keys
        invariant forall id | id in old(seenEvts) ::
          id in seenEvts <==> id in todo || Live(dedupTTL, old(seenEvts)[id], now)
        invariant forall id | id in seenEvts :: seenEvts[id] == old(seenEvts)[id]
        decreases todo
      {
        var id :| id in todo;
        todo := todo - {id};
        if dedupTTL > 0 && now - seenEvts[id] > dedupTTL {
          seenEvts := seenEvts - {id};
        }
      }
      assert seenEvts == Evict(dedupTTL, old(seenEvts), now);
      if eventID in seenEvts {
        if dedupTTL <= 0 || now - seenEvts[eventID] <= dedupTTL {
          return true;
        }
      }
      seenEvts := seenEvts[eventID := now];
      return false;
    }

    method UnmarkEvent(eventID: string)
      modifies this`seenEvts
      ensures seenEvts == Unmark(old(seenEvts), eventID)
    {
      if eventID == "" {
        return;
      }
      seenEvts := seenEvts - {eventID};
    }

    method MarkDispatchedThread(bot: string, thread: string, now: int)
      modifies this`dispatchedThreads
      ensures dispatchedThreads == MarkThread(old(dispatchedThreads), bot, thread, now)
    {
      if thread == "" {
        return;
      }
      dispatchedThreads := dispatchedThreads[ThreadKey(bot, thread) := now];
    }

    predicate KnownThread(bot: string, root: string)
      reads this
    {
      Knows(dispatchedThreads, bot, root)
    }

    /** One dispatch with nothing interleaved: a duplicate when the event's mark still counts, and
        otherwise failed exactly when detection fails, or nobody but the dispatcher takes it and the
        dispatcher refuses. A failed one is no duplicate when it comes again, whenever that is. Its
        effect on the marks is that of the concurrent system's steps, one after the other. */
    method Dispatch(bot: string, eventID: string, thread: string, now: int, chat: ChatOutcome, dispatcherOk: bool)
      returns (outcome: Outcome)
      modifies this
      ensures outcome == Duplicate <==>
                && eventID != "" && eventID in old(seenEvts)
                && (dedupTTL <= 0 || now - old(seenEvts)[eventID] <= dedupTTL)
      ensures outcome == Failed <==>
                outcome != Duplicate && (chat == DetectionFailed || (chat != Handled && !dispatcherOk))
      ensures outcome == Failed && eventID != "" ==>
                eventID !in seenEvts && forall later :: !CheckAndMark(dedupTTL, seenEvts, eventID, later).1
      ensures outcome == Duplicate ==>
                seenEvts == Evict(dedupTTL, old(seenEvts), now) && dispatchedThreads == old(dispatchedThreads)
      ensures outcome == Failed && eventID != "" ==> seenEvts == Evict(dedupTTL, old(seenEvts), now) - {eventID}
      ensures outcome == Accepted && eventID != "" ==> seenEvts == Evict(dedupTTL, old(seenEvts), now)[eventID := now]
      ensures eventID == "" ==> seenEvts == old(seenEvts)
      ensures outcome != Duplicate && thread != "" ==> KnownThread(bot, thread)
      ensures outcome != Duplicate ==> dispatchedThreads == MarkThread(old(dispatchedThreads), bot, thread, now)
      ensures forall s: State, d: nat | s.seen == old(seenEvts) && s.clock <= now && d !in s.inFlight ::
                seenEvts == Alone(dedupTTL, s, d, eventID, now,
                                  chat == DetectionFailed || (chat != Handled && !dispatcherOk)).seen
    {
      ghost var fails := chat == DetectionFailed || (chat != Handled && !dispatcherOk);
      forall s: State, d: nat | s.seen == seenEvts && s.clock <= now && d !in s.inFlight
        ensures Alone(dedupTTL, s, d, eventID, now, fails).seen == MarksAfter(dedupTTL, seenEvts, eventID, now, fails)
      {
        AloneMarks(dedupTTL, s, d, eventID, now, fails);
      }
      if eventID != "" {
        var seen := CheckAndMarkSeen(eventID, now);
        if seen {
          return Duplicate;
        }
      }
      MarkDispatchedThread(bot, thread, now);
      if chat == DetectionFailed {
        UnmarkEvent(eventID);
        return Failed;
      }
      if chat == Handled {
        return Accepted;
      }
      if !dispatcherOk {
        UnmarkEvent(eventID);
        return Failed;
      }
      return Accepted;
    }
  }

  // ---------------------------------------------------------------- eviction is invisible

  datatype Op = CheckOp(id: string, now: int) | UnmarkOp(id: string)

  /** An append-only record of marks, unmarks and sweeps, never evicted. */
  datatype Note = Marked(id: string, at: int) | Unmarked(id: string) | Swept(now: int)

  predicate Concerns(n: Note, id: string) {
    !n.Swept? && n.id == id
  }

  function LatestMark(log: seq<Note>, id: string): Option<int> {
    if log == [] then None
    else
      var n := log[|log| - 1];
      if !Concerns(n, id) then LatestMark(log[..|log| - 1], id)
      else if n.Marked? then Some(n.at) else None
  }

  /** The log's answer: the latest note for the event is a mark that still counts. */
  predicate LogSays(ttl: int, log: seq<Note>, id: string, now: int) {
    LatestMark(log, id).Some? && Live(ttl, LatestMark(log, id).value, now)
  }

  function CacheAnswers(ttl: int, seen: Seen, ops: seq<Op>): seq<bool>
    decreases |ops|
  {
    if ops == [] then []
    else match ops[0]
      case CheckOp(id, now) =>
        var (next, answer) := CheckAndMark(ttl, seen, id, now);
        [answer] + CacheAnswers(ttl, next, ops[1..])
      case UnmarkOp(id) => CacheAnswers(ttl, Unmark(seen, id), ops[1..])
  }

  function LogAnswers(ttl: int, log: seq<Note>, ops: seq<Op>): seq<bool>
    decreases |ops|
  {
    if ops == [] then []
    else match ops[0]
      case CheckOp(id, now) =>
        if LogSays(ttl, log, id, now) then [true] + LogAnswers(ttl, log, ops[1..])
        else [false] + LogAnswers(ttl, log + [Marked(id, now)], ops[1..])
      case UnmarkOp(id) =>
        LogAnswers(ttl, if id == "" then log else log + [Unmarked(id)], ops[1..])
  }

  ghost predicate ClockAfter(ops: seq<Op>, clock: int)
    decreases |ops|
  {
    ops == [] ||
    (match ops[0]
     case CheckOp(_, now) => clock <= now && ClockAfter(ops[1..], now)
     case UnmarkOp(_) => ClockAfter(ops[1..], clock))
  }

  /** The cache holds the log's latest marks, except marks that have already expired. */
  ghost predicate Agree(ttl: int, seen: Seen, log: seq<Note>, clock: int) {
    && (forall id | id in seen :: LatestMark(log, id) == Some(seen[id]))
    && (forall id | id !in seen :: LogSays(ttl, log, id, clock) == false)
  }

  lemma LatestAfterNote(log: seq<Note>, n: Note, id: string)
    ensures LatestMark(log + [n], id) ==
            if !Concerns(n, id) then LatestMark(log, id) else if n.Marked? then Some(n.at) else None
  {
    assert (log + [n])[..|log|] == log;
  }

  lemma CheckKeepsAgreement(ttl: int, seen: Seen, log: seq<Note>, clock: int, id: string, now: int)
    requires Agree(ttl, seen, log, clock) && clock <= now
    ensures var (next, answer) := CheckAndMark(ttl, seen, id, now);
            && answer == LogSays(ttl, log, id, now)
            && Agree(ttl, next, if answer then log else log + [Marked(id, now)], now)
  {
    var (next, answer) := CheckAndMark(ttl, seen, id, now);
    if !answer {
      forall other
        ensures LatestMark(log + [Marked(id, now)], other) == if other == id then Some(now) else LatestMark(log, other)
      {
        LatestAfterNote(log, Marked(id, now), other);
      }
    }
  }

  lemma UnmarkKeepsAgreement(ttl: int, seen: Seen, log: seq<Note>, clock: int, id: string)
    requires Agree(ttl, seen, log, clock)
    ensures Agree(ttl, Unmark(seen, id), if id == "" then log else log + [Unmarked(id)], clock)
  {
    if id != "" {
      forall other
        ensures LatestMark(log + [Unmarked(id)], other) == if other == id then None else LatestMark(log, other)
      {
        LatestAfterNote(log, Unmarked(id), other);
      }
    }
  }

  lemma {:induction false} AnswersAgree(ttl: int, seen: Seen, log: seq<Note>, clock: int, ops: seq<Op>)
    requires Agree(ttl, seen, log, clock) && ClockAfter(ops, clock)
    ensures CacheAnswers(ttl, seen, ops) == LogAnswers(ttl, log, ops)
    decreases |ops|
  {
    if ops != [] {
      match ops[0]
      case CheckOp(id, now) =>
        CheckKeepsAgreement(ttl, seen, log, clock, id, now);
        var (next, answer) := CheckAndMark(ttl, seen, id, now);
        AnswersAgree(ttl, next, if answer then log else log + [Marked(id, now)], now, ops[1..]);
      case UnmarkOp(id) =>
        UnmarkKeepsAgreement(ttl, seen, log, clock, id);
        AnswersAgree(ttl, Unmark(seen, id), if id == "" then log else log + [Unmarked(id)], clock, ops[1..]);
    }
  }

  /** Under a clock that never goes back the evicted cache answers every history of checks and
      unmarks as the full log does. */
  lemma EvictionInvisible(ttl: int, ops: seq<Op>, start: int)
    requires ClockAfter(ops, start)
    ensures CacheAnswers(ttl, map[], ops) == LogAnswers(ttl, [], ops)
  {
    AnswersAgree(ttl, map[], [], start, ops);
  }

  /** How an event's mark ages: still there, or dropped once the clock was past its TTL. */
  lemma {:induction false} MarkAges(ttl: int, seen: Seen, clock: int, id: string, mark: int, ops: seq<Op>, now: int)
    requires ClockAfter(ops + [CheckOp(id, now)], clock) && mark <= clock
    requires forall i | 0 <= i < |ops| :: ops[i].id != id
    requires if id in seen then seen[id] == mark else ttl > 0 && clock - mark > ttl
    ensures CheckAndMark(ttl, Play(ttl, seen, [], ops).0, id, now).1 <==> ttl <= 0 || now - mark <= ttl
    decreases |ops|
  {
    if ops != [] {
      assert (ops + [CheckOp(id, now)])[1..] == ops[1..] + [CheckOp(id, now)];
      match ops[0]
      case CheckOp(other, at) =>
        var (next, answer) := CheckAndMark(ttl, seen, other, at);
        MarkAges(ttl, next, at, id, mark, ops[1..], now);
        PlayForgetsLog(ttl, next, [] + [Swept(at)] + (if answer then [] else [Marked(other, at)]), [], ops[1..]);
      case UnmarkOp(other) =>
        MarkAges(ttl, Unmark(seen, other), clock, id, mark, ops[1..], now);
        PlayForgetsLog(ttl, Unmark(seen, other), if other == "" then [] else [] + [Unmarked(other)], [], ops[1..]);
    }
  }

  /** Once an event has been let through and marked, whatever is checked and unmarked of the others, it
      is a duplicate for as long as its age is at most the TTL, and for ever if there is none. */
  lemma DuplicateWithinTTL(ttl: int, seen: Seen, id: string, mark: int, ops: seq<Op>, now: int)
    requires !CheckAndMark(ttl, seen, id, mark).1
    requires ClockAfter(ops + [CheckOp(id, now)], mark) && forall i | 0 <= i < |ops| :: ops[i].id != id
    ensures var marked := CheckAndMark(ttl, seen, id, mark).0;
            CheckAndMark(ttl, Play(ttl, marked, [], ops).0, id, now).1 <==> ttl <= 0 || now - mark <= ttl
  {
    MarkAges(ttl, CheckAndMark(ttl, seen, id, mark).0, mark, id, mark, ops, now);
  }

  // ---------------------------------------------------------------- instants in any order

  // A dispatch reads the clock before it takes the mutex, so a later section can carry an earlier
  // instant than the one before it.

  /** A history played on the cache, with the full record of what happened to it: every check sweeps
      first, and marks its event unless it answered yes. */
  function Play(ttl: int, seen: Seen, log: seq<Note>, ops: seq<Op>): (Seen, seq<Note>)
    decreases |ops|
  {
    if ops == [] then (seen, log)
    else match ops[0]
      case CheckOp(id, now) =>
        var (next, answer) := CheckAndMark(ttl, seen, id, now);
        Play(ttl, next, log + [Swept(now)] + (if answer then [] else [Marked(id, now)]), ops[1..])
      case UnmarkOp(id) =>
        Play(ttl, Unmark(seen, id), if id == "" then log else log + [Unmarked(id)], ops[1..])
  }

  lemma {:induction false} PlayForgetsLog(ttl: int, seen: Seen, log: seq<Note>, other: seq<Note>, ops: seq<Op>)
    ensures Play(ttl, seen, log, ops).0 == Play(ttl, seen, other, ops).0
    decreases |ops|
  {
    if ops != [] {
      match ops[0]
      case CheckOp(id, now) =>
        var (next, answer) := CheckAndMark(ttl, seen, id, now);
        var notes := [Swept(now)] + (if answer then [] else [Marked(id, now)]);
        PlayForgetsLog(ttl, next, log + notes, other + notes, ops[1..]);
        assert log + [Swept(now)] + (if answer then [] else [Marked(id, now)]) == log + notes;
        assert other + [Swept(now)] + (if answer then [] else [Marked(id, now)]) == other + notes;
      case UnmarkOp(id) =>
        var notes := if id == "" then [] else [Unmarked(id)];
        PlayForgetsLog(ttl, Unmark(seen, id), log + notes, other + notes, ops[1..]);
        assert (if id == "" then log else log + [Unmarked(id)]) == log + notes;
        assert (if id == "" then other else other + [Unmarked(id)]) == other + notes;
    }
  }

  /** The sweep at k came after the latest note of the event and found its mark expired. */
  ghost predicate SweptExpired(ttl: int, log: seq<Note>, id: string, mark: int, k: int) {
    && 0 <= k < |log| && log[k].Swept? && !Live(ttl, mark, log[k].now)
    && forall j | k < j < |log| :: !Concerns(log[j], id)
  }

  /** The event's latest mark was dropped by some sweep. */
  ghost predicate Dropped(ttl: int, log: seq<Note>, id: string) {
    LatestMark(log, id).Some? && exists k :: SweptExpired(ttl, log, id, LatestMark(log, id).value, k)
  }

  /** The cache holds exactly the latest marks that no sweep has dropped. */
  ghost predicate Tracks(ttl: int, seen: Seen, log: seq<Note>) {
    forall id :: TracksOne(ttl, seen, log, id)
  }

  ghost predicate TracksOne(ttl: int, seen: Seen, log: seq<Note>, id: string) {
    && (id in seen ==> LatestMark(log, id) == Some(seen[id]))
    && (id in seen <==> LatestMark(log, id).Some? && !Dropped(ttl, log, id))
  }

  lemma NoteOfAnotherEvent(ttl: int, log: seq<Note>, n: Note, id: string)
    requires !n.Swept? && n.id != id
    ensures LatestMark(log + [n], id) == LatestMark(log, id)
    ensures Dropped(ttl, log + [n], id) <==> Dropped(ttl, log, id)
  {
    var more := log + [n];
    LatestAfterNote(log, n, id);
    assert forall k | 0 <= k < |log| :: more[k] == log[k];
    if Dropped(ttl, log, id) {
      var m := LatestMark(log, id).value;
      var k :| SweptExpired(ttl, log, id, m, k);
      assert SweptExpired(ttl, more, id, m, k);
    }
    if Dropped(ttl, more, id) {
      var m := LatestMark(log, id).value;
      var k :| SweptExpired(ttl, more, id, m, k);
      assert SweptExpired(ttl, log, id, m, k);
    }
  }

  lemma SweepDrops(ttl: int, log: seq<Note>, now: int, id: string)
    ensures LatestMark(log + [Swept(now)], id) == LatestMark(log, id)
    ensures LatestMark(log, id).Some? ==>
              (Dropped(ttl, log + [Swept(now)], id) <==>
                Dropped(ttl, log, id) || !Live(ttl, LatestMark(log, id).value, now))
  {
    var more := log + [Swept(now)];
    LatestAfterNote(log, Swept(now), id);
    assert forall k | 0 <= k < |log| :: more[k] == log[k];
    if LatestMark(log, id).Some? {
      var m := LatestMark(log, id).value;
      if Dropped(ttl, log, id) {
        var k :| SweptExpired(ttl, log, id, m, k);
        assert SweptExpired(ttl, more, id, m, k);
      }
      if !Live(ttl, m, now) {
        assert SweptExpired(ttl, more, id, m, |log|);
      }
      if Dropped(ttl, more, id) {
        var k :| SweptExpired(ttl, more, id, m, k);
        assert k < |log| ==> SweptExpired(ttl, log, id, m, k);
      }
    }
  }

  lemma FreshMarkKept(ttl: int, log: seq<Note>, id: string, now: int)
    ensures LatestMark(log + [Marked(id, now)], id) == Some(now) && !Dropped(ttl, log + [Marked(id, now)], id)
  {
    var more := log + [Marked(id, now)];
    LatestAfterNote(log, Marked(id, now), id);
    forall k ensures !SweptExpired(ttl, more, id, now, k) {
      assert Concerns(more[|log|], id);
    }
  }

  lemma CheckTracks(ttl: int, seen: Seen, log: seq<Note>, id: string, now: int)
    requires Tracks(ttl, seen, log)
    ensures var (next, answer) := CheckAndMark(ttl, seen, id, now);
            Tracks(ttl, next, log + [Swept(now)] + (if answer then [] else [Marked(id, now)]))
  {
    var (next, answer) := CheckAndMark(ttl, seen, id, now);
    var swept := log + [Swept(now)];
    forall other ensures TracksOne(ttl, Evict(ttl, seen, now), swept, other) {
      assert TracksOne(ttl, seen, log, other);
      SweepDrops(ttl, log, now, other);
    }
    if answer {
      assert swept + [] == swept;
    } else {
      forall other ensures TracksOne(ttl, next, swept + [Marked(id, now)], other) {
        assert TracksOne(ttl, Evict(ttl, seen, now), swept, other);
        if other == id {
          FreshMarkKept(ttl, swept, id, now);
        } else {
          NoteOfAnotherEvent(ttl, swept, Marked(id, now), other);
        }
      }
    }
  }

  lemma UnmarkTracks(ttl: int, seen: Seen, log: seq<Note>, id: string)
    requires Tracks(ttl, seen, log) && id != ""
    ensures Tracks(ttl, Unmark(seen, id), log + [Unmarked(id)])
  {
    forall other ensures TracksOne(ttl, Unmark(seen, id), log + [Unmarked(id)], other) {
      assert TracksOne(ttl, seen, log, other);
      if other == id {
        LatestAfterNote(log, Unmarked(id), id);
      } else {
        NoteOfAnotherEvent(ttl, log, Unmarked(id), other);
      }
    }
  }

  lemma {:induction false} PlayTracks(ttl: int, seen: Seen, log: seq<Note>, ops: seq<Op>)
    requires Tracks(ttl, seen, log)
    ensures var (after, record) := Play(ttl, seen, log, ops); Tracks(ttl, after, record)
    decreases |ops|
  {
    if ops != [] {
      match ops[0]
      case CheckOp(id, now) =>
        CheckTracks(ttl, seen, log, id, now);
        var (next, answer) := CheckAndMark(ttl, seen, id, now);
        PlayTracks(ttl, next, log + [Swept(now)] + (if answer then [] else [Marked(id, now)]), ops[1..]);
      case UnmarkOp(id) =>
        if id != "" {
          UnmarkTracks(ttl, seen, log, id);
        }
        PlayTracks(ttl, Unmark(seen, id), if id == "" then log else log + [Unmarked(id)], ops[1..]);
    }
  }

  /** Whatever instants the sections carry: after any history the cache's answer to a check differs from
      the full log's exactly when the log says the event is marked and some sweep since that mark
      carried an instant past the mark's TTL, later than this check's own. */
  lemma EvictionShowsIff(ttl: int, ops: seq<Op>, id: string, now: int)
    ensures var (seen, log) := Play(ttl, map[], [], ops);
            CheckAndMark(ttl, seen, id, now).1 != LogSays(ttl, log, id, now) <==>
            LogSays(ttl, log, id, now) && Dropped(ttl, log, id)
  {
    PlayTracks(ttl, map[], [], ops);
    var (seen, log) := Play(ttl, map[], [], ops);
    assert TracksOne(ttl, seen, log, id);
  }

  const OUT_OF_ORDER: seq<Op> := [CheckOp("e", 0), CheckOp("f", 11)]

  /** Such a history: marked at 0, swept at 11 under a TTL of 10, and then a check that read the clock
      at 10 and waited for the mutex. */
  lemma LateSectionShows()
    ensures var (seen, log) := Play(10, map[], [], OUT_OF_ORDER);
            LogSays(10, log, "e", 10) && Dropped(10, log, "e") && !CheckAndMark(10, seen, "e", 10).1
  {
    var s1: Seen := map["e" := 0];
    var s2: Seen := map["f" := 11];
    var l1: seq<Note> := [Swept(0), Marked("e", 0)];
    var l2 := l1 + [Swept(11)] + [Marked("f", 11)];
    assert CheckAndMark(10, map[], "e", 0) == (s1, false);
    assert Evict(10, s1, 11) == map[];
    assert CheckAndMark(10, s1, "f", 11) == (s2, false);
    assert [] + [Swept(0)] + [Marked("e", 0)] == l1;
    assert Play(10, s1, l1, OUT_OF_ORDER[1..]) == (s2, l2);
    assert l1[..1] + [Marked("e", 0)] == l1;
    LatestAfterNote(l1[..1], Marked("e", 0), "e");
    LatestAfterNote(l1, Swept(11), "e");
    LatestAfterNote(l1 + [Swept(11)], Marked("f", 11), "e");
    assert SweptExpired(10, l2, "e", 0, 2);
  }

  // ---------------------------------------------------------------- concurrent dispatches

  /** A dispatch past its check: its event and the instant it marked it. */
  datatype Attempt = Attempt(event: string, mark: int)

  datatype State = State(seen: Seen, inFlight: map<nat, Attempt>, done: seq<Attempt>, clock: int)

  datatype Step =
    | Begin(d: nat, event: string, now: int)
    | Succeed(d: nat, now: int)
    | Fail(d: nat, now: int)

  /** What the source allows: a fresh dispatch begins, or one in flight ends. */
  predicate Enabled(s: State, step: Step) {
    && s.clock <= step.now
    && (if step.Begin? then step.d !in s.inFlight else step.d in s.inFlight)
  }

  function Next(ttl: int, s: State, step: Step): State
    requires Enabled(s, step)
  {
    match step
    case Begin(d, event, now) =>
      if event == "" then s.(inFlight := s.inFlight[d := Attempt("", now)], clock := now)
      else
        var (seen, duplicate) := CheckAndMark(ttl, s.seen, event, now);
        s.(seen := seen, clock := now,
           inFlight := if duplicate then s.inFlight else s.inFlight[d := Attempt(event, now)])
    case Succeed(d, now) =>
      s.(done := s.done + [s.inFlight[d]], inFlight := s.inFlight - {d}, clock := now)
    case Fail(d, now) =>
      s.(seen := Unmark(s.seen, s.inFlight[d].event), inFlight := s.inFlight - {d}, clock := now)
  }

  /** A dispatch that nothing interrupts: it begins and, unless it was a duplicate, fails or succeeds
      at once. */
  function Alone(ttl: int, s: State, d: nat, event: string, now: int, fails: bool): State
    requires s.clock <= now && d !in s.inFlight
  {
    var begun := Next(ttl, s, Begin(d, event, now));
    if d !in begun.inFlight then begun
    else if fails then Next(ttl, begun, Fail(d, now))
    else Next(ttl, begun, Succeed(d, now))
  }

  /** The marks such a dispatch leaves: a mark that counts stays, and otherwise the event is marked
      exactly when the dispatch does not fail. */
  function MarksAfter(ttl: int, seen: Seen, event: string, now: int, fails: bool): Seen {
    if event == "" then seen
    else if CheckAndMark(ttl, seen, event, now).1 then Evict(ttl, seen, now)
    else if fails then Evict(ttl, seen, now) - {event}
    else Evict(ttl, seen, now)[event := now]
  }

  lemma AloneMarks(ttl: int, s: State, d: nat, event: string, now: int, fails: bool)
    requires s.clock <= now && d !in s.inFlight
    ensures Alone(ttl, s, d, event, now, fails).seen == MarksAfter(ttl, s.seen, event, now, fails)
  {
  }

  // ---- what every step keeps, and the one step that does not

  predicate Apart(ttl: int, earlier: int, later: int) {
    ttl > 0 && later - earlier > ttl
  }

  /** Marks of one event, in either order, more than the TTL apart. */
  predicate Spaced(ttl: int, a: Attempt, b: Attempt) {
    a.event == b.event != "" ==> Apart(ttl, a.mark, b.mark) || Apart(ttl, b.mark, a.mark)
  }

  /** An attempt's mark is still in the cache, or has expired. */
  predicate Guarded(ttl: int, s: State, a: Attempt) {
    a.event != "" ==>
      && a.mark <= s.clock
      && ((a.event in s.seen && s.seen[a.event] == a.mark) || Apart(ttl, a.mark, s.clock))
  }

  /** Some attempt, in flight or done, made the mark that the cache holds for the event. */
  ghost predicate Owned(s: State, id: string)
    requires id in s.seen
  {
    || (exists d :: d in s.inFlight && s.inFlight[d] == Attempt(id, s.seen[id]))
    || Attempt(id, s.seen[id]) in s.done
  }

  ghost predicate AllGuarded(ttl: int, s: State) {
    && (forall d | d in s.inFlight :: Guarded(ttl, s, s.inFlight[d]))
    && (forall i | 0 <= i < |s.done| :: Guarded(ttl, s, s.done[i]))
  }

  ghost predicate AllSpaced(ttl: int, s: State) {
    && (forall d, e | d in s.inFlight && e in s.inFlight && d != e :: Spaced(ttl, s.inFlight[d], s.inFlight[e]))
    && (forall d, i | d in s.inFlight && 0 <= i < |s.done| :: Spaced(ttl, s.inFlight[d], s.done[i]))
    && (forall i, j | 0 <= i < j < |s.done| :: Spaced(ttl, s.done[i], s.done[j]))
  }

  ghost predicate AllOwned(s: State) {
    "" !in s.seen && forall id | id in s.seen :: Owned(s, id)
  }

  ghost predicate SpacingInv(ttl: int, s: State) {
    AllGuarded(ttl, s) && AllSpaced(ttl, s) && AllOwned(s)
  }

  /** A failure that takes back a live mark which is not its own. */
  predicate TakesAnothersMark(ttl: int, s: State, step: Step)
    requires Enabled(s, step)
  {
    step.Fail? &&
    var a := s.inFlight[step.d];
    a.event in s.seen && s.seen[a.event] != a.mark && Live(ttl, s.seen[a.event], step.now)
  }

  lemma GuardKept(ttl: int, s: State, step: Step, a: Attempt)
    requires SpacingInv(ttl, s) && Enabled(s, step) && !TakesAnothersMark(ttl, s, step)
    requires Guarded(ttl, s, a)
    requires step.Fail? ==> Spaced(ttl, s.inFlight[step.d], a)
    ensures Guarded(ttl, Next(ttl, s, step), a)
  {
  }

  lemma BeginKeepsGuards(ttl: int, s: State, step: Step)
    requires SpacingInv(ttl, s) && Enabled(s, step) && step.Begin?
    ensures AllGuarded(ttl, Next(ttl, s, step))
  {
    var t := Next(ttl, s, step);
    forall d | d in t.inFlight ensures Guarded(ttl, t, t.inFlight[d]) {
      if d in s.inFlight {
        GuardKept(ttl, s, step, s.inFlight[d]);
      }
    }
    forall i | 0 <= i < |t.done| ensures Guarded(ttl, t, t.done[i]) {
      GuardKept(ttl, s, step, s.done[i]);
    }
  }

  lemma EndKeepsGuards(ttl: int, s: State, step: Step)
    requires SpacingInv(ttl, s) && Enabled(s, step) && !step.Begin? && !TakesAnothersMark(ttl, s, step)
    ensures AllGuarded(ttl, Next(ttl, s, step))
  {
    var t := Next(ttl, s, step);
    forall d | d in t.inFlight ensures Guarded(ttl, t, t.inFlight[d]) {
      GuardKept(ttl, s, step, s.inFlight[d]);
    }
    forall i | 0 <= i < |t.done| ensures Guarded(ttl, t, t.done[i]) {
      GuardKept(ttl, s, step, if i < |s.done| then s.done[i] else s.inFlight[step.d]);
    }
  }

  /** An event is marked anew only when every earlier attempt at it has expired. */
  lemma NewMarkIsSpaced(ttl: int, s: State, step: Step, a: Attempt)
    requires Enabled(s, step) && step.Begin? && step.event != "" && Guarded(ttl, s, a)
    requires !CheckAndMark(ttl, s.seen, step.event, step.now).1
    ensures Spaced(ttl, Attempt(step.event, step.now), a) && Spaced(ttl, a, Attempt(step.event, step.now))
  {
  }

  lemma BeginKeepsSpacing(ttl: int, s: State, step: Step)
    requires SpacingInv(ttl, s) && Enabled(s, step) && step.Begin?
    ensures AllSpaced(ttl, Next(ttl, s, step))
  {
    if step.event != "" && !CheckAndMark(ttl, s.seen, step.event, step.now).1 {
      forall d | d in s.inFlight
        ensures Spaced(ttl, Attempt(step.event, step.now), s.inFlight[d])
        ensures Spaced(ttl, s.inFlight[d], Attempt(step.event, step.now))
      {
        NewMarkIsSpaced(ttl, s, step, s.inFlight[d]);
      }
      forall i | 0 <= i < |s.done| ensures Spaced(ttl, Attempt(step.event, step.now), s.done[i]) {
        NewMarkIsSpaced(ttl, s, step, s.done[i]);
      }
    }
  }

  lemma EndKeepsSpacing(ttl: int, s: State, step: Step)
    requires SpacingInv(ttl, s) && Enabled(s, step) && !step.Begin?
    ensures AllSpaced(ttl, Next(ttl, s, step))
  {
  }

  lemma OwnersKept(ttl: int, s: State, step: Step)
    requires SpacingInv(ttl, s) && Enabled(s, step)
    ensures AllOwned(Next(ttl, s, step))
  {
    var t := Next(ttl, s, step);
    forall id | id in t.seen ensures Owned(t, id) {
      if id in s.seen && s.seen[id] == t.seen[id]
          && !(step.Begin? && step.event == id && id !in Evict(ttl, s.seen, step.now)) {
        OwnerStays(ttl, s, step, id);
      } else {
        assert t.inFlight[step.d] == Attempt(id, t.seen[id]);
      }
    }
  }

  lemma OwnerStays(ttl: int, s: State, step: Step, id: string)
    requires SpacingInv(ttl, s) && Enabled(s, step)
    requires id in s.seen && id in Next(ttl, s, step).seen && Next(ttl, s, step).seen[id] == s.seen[id]
    ensures Owned(Next(ttl, s, step), id)
  {
    var t := Next(ttl, s, step);
    var a := Attempt(id, s.seen[id]);
    assert Owned(s, id);
    if a !in s.done {
      var d :| d in s.inFlight && s.inFlight[d] == a;
      if d in t.inFlight {
        assert t.inFlight[d] == a;
      } else {
        assert step.Succeed? && t.done[|s.done|] == a;
      }
    } else {
      var i :| 0 <= i < |s.done| && s.done[i] == a;
      assert t.done[i] == a;
    }
  }

  lemma TheftBreaksInv(ttl: int, s: State, step: Step)
    requires SpacingInv(ttl, s) && Enabled(s, step) && TakesAnothersMark(ttl, s, step)
    ensures !AllGuarded(ttl, Next(ttl, s, step))
  {
    var id := s.inFlight[step.d].event;
    var a := Attempt(id, s.seen[id]);
    var t := Next(ttl, s, step);
    assert Owned(s, id) && !Guarded(ttl, t, a);
    if a in s.done {
      var i :| 0 <= i < |s.done| && s.done[i] == a;
      assert t.done[i] == a;
    } else {
      var d :| d in s.inFlight && s.inFlight[d] == a;
      assert t.inFlight[d] == a;
    }
  }

  /** Every step keeps the spacing of one event's marks, except exactly a failure that takes back a
      live mark which is not its own. */
  lemma StepKeepsSpacingIff(ttl: int, s: State, step: Step)
    requires SpacingInv(ttl, s) && Enabled(s, step)
    ensures SpacingInv(ttl, Next(ttl, s, step)) <==> !TakesAnothersMark(ttl, s, step)
  {
    if TakesAnothersMark(ttl, s, step) {
      TheftBreaksInv(ttl, s, step);
    } else {
      OwnersKept(ttl, s, step);
      if step.Begin? {
        BeginKeepsGuards(ttl, s, step);
        BeginKeepsSpacing(ttl, s, step);
      } else {
        EndKeepsGuards(ttl, s, step);
        EndKeepsSpacing(ttl, s, step);
      }
    }
  }

  /** A dispatch that fails within the TTL of its own mark takes back no other. */
  lemma TimelyFailureIsHarmless(ttl: int, s: State, step: Step)
    requires SpacingInv(ttl, s) && Enabled(s, step) && step.Fail?
    requires Live(ttl, s.inFlight[step.d].mark, step.now)
    ensures !TakesAnothersMark(ttl, s, step)
  {
    assert Guarded(ttl, s, s.inFlight[step.d]);
  }

  // ---- over every run

  ghost predicate Follows(ttl: int, states: seq<State>, steps: seq<Step>) {
    && |states| == |steps| + 1
    && forall i | 0 <= i < |steps| :: Enabled(states[i], steps[i]) && states[i + 1] == Next(ttl, states[i], steps[i])
  }

  ghost predicate IsRun(ttl: int, states: seq<State>, steps: seq<Step>) {
    Follows(ttl, states, steps) && states[0].seen == map[] && states[0].inFlight == map[] && states[0].done == []
  }

  lemma {:induction false} RunKeepsSpacing(ttl: int, states: seq<State>, steps: seq<Step>, n: nat)
    requires IsRun(ttl, states, steps) && n < |states|
    requires forall i | 0 <= i < n :: !TakesAnothersMark(ttl, states[i], steps[i])
    ensures SpacingInv(ttl, states[n])
  {
    if n > 0 {
      RunKeepsSpacing(ttl, states, steps, n - 1);
      StepKeepsSpacingIff(ttl, states[n - 1], steps[n - 1]);
    }
  }

  /** In every interleaving in which no failure takes back a live mark of another dispatch, however
      long the dispatches take, two successful dispatches of one event were marked more than the TTL
      apart; with a TTL that never expires there is at most one. */
  lemma SuccessesOfOneEventApart(ttl: int, states: seq<State>, steps: seq<Step>, n: nat, i: nat, j: nat)
    requires IsRun(ttl, states, steps) && n < |states|
    requires forall k | 0 <= k < n :: !TakesAnothersMark(ttl, states[k], steps[k])
    requires i < j < |states[n].done| && states[n].done[i].event == states[n].done[j].event != ""
    ensures var a, b := states[n].done[i].mark, states[n].done[j].mark;
            ttl > 0 && (a - b > ttl || b - a > ttl)
  {
    RunKeepsSpacing(ttl, states, steps, n);
    assert Spaced(ttl, states[n].done[i], states[n].done[j]);
  }

  /** In particular when every dispatch that fails does so within the TTL of its own mark. */
  lemma {:induction false} TimelyFailuresKeepSpacing(ttl: int, states: seq<State>, steps: seq<Step>, n: nat)
    requires IsRun(ttl, states, steps) && n < |states|
    requires forall k | 0 <= k < |steps| && steps[k].Fail? ::
                 Live(ttl, states[k].inFlight[steps[k].d].mark, steps[k].now)
    ensures SpacingInv(ttl, states[n])
    ensures forall k | 0 <= k < n :: !TakesAnothersMark(ttl, states[k], steps[k])
  {
    if n > 0 {
      TimelyFailuresKeepSpacing(ttl, states, steps, n - 1);
      if steps[n - 1].Fail? {
        TimelyFailureIsHarmless(ttl, states[n - 1], steps[n - 1]);
      }
      StepKeepsSpacingIff(ttl, states[n - 1], steps[n - 1]);
    }
  }

  /** Two of the done dispatches of one event are marked within the TTL. */
  ghost predicate CloseSuccesses(ttl: int, s: State) {
    exists i, j :: 0 <= i < j < |s.done| && !Spaced(ttl, s.done[i], s.done[j])
  }

  lemma Extend(ttl: int, states: seq<State>, steps: seq<Step>, step: Step)
    returns (more: seq<State>, moreSteps: seq<Step>)
    requires Follows(ttl, states, steps) && Enabled(states[|steps|], step)
    ensures Follows(ttl, more, moreSteps) && |moreSteps| == |steps| + 1
    ensures more[0] == states[0] && moreSteps[..|steps|] == steps && moreSteps[|steps|] == step
    ensures more[|moreSteps|] == Next(ttl, states[|steps|], step)
  {
    more, moreSteps := states + [Next(ttl, states[|steps|], step)], steps + [step];
  }

  /** The exception is real: from any such failure a replay and at most two successes give two done
      dispatches of one event marked within the TTL. */
  lemma TheftGivesCloseSuccesses(ttl: int, s: State, step: Step, replay: nat)
    returns (states: seq<State>, steps: seq<Step>)
    requires SpacingInv(ttl, s) && Enabled(s, step) && TakesAnothersMark(ttl, s, step) && replay !in s.inFlight
    ensures Follows(ttl, states, steps) && states[0] == s && |steps| > 0 && steps[0] == step
    ensures CloseSuccesses(ttl, states[|steps|])
  {
    var id, now := s.inFlight[step.d].event, step.now;
    var a := Attempt(id, s.seen[id]);
    assert Owned(s, id);
    states, steps := Extend(ttl, [s], [], step);
    states, steps := Extend(ttl, states, steps, Begin(replay, id, now));
    assert states[|steps|].inFlight[replay] == Attempt(id, now);
    ghost var i := |s.done|;
    if a in s.done {
      i :| 0 <= i < |s.done| && s.done[i] == a;
    } else {
      var d :| d in s.inFlight && s.inFlight[d] == a;
      states, steps := Extend(ttl, states, steps, Succeed(d, now));
    }
    assert states[|steps|].done[i] == a;
    states, steps := Extend(ttl, states, steps, Succeed(replay, now));
    var done := states[|steps|].done;
    assert done[i] == a && done[|done| - 1] == Attempt(id, now) && !Spaced(ttl, done[i], done[|done| - 1]);
  }

  /** The mark that the cache holds for an event after one of its dispatches failed was made by a
      later dispatch: until one begins, a replay is never taken for a duplicate. */
  lemma {:induction false} FailedDispatchIsRetried(ttl: int, states: seq<State>, steps: seq<Step>, n: nat, m: nat)
    requires IsRun(ttl, states, steps) && n < m < |states|
    requires steps[n].Fail? && states[n].inFlight[steps[n].d].event != ""
    ensures var id := states[n].inFlight[steps[n].d].event;
            id in states[m].seen ==>
              exists k :: n < k < m && steps[k].Begin? && steps[k].event == id && steps[k].now == states[m].seen[id]
  {
    var id := states[n].inFlight[steps[n].d].event;
    if n < m - 1 {
      FailedDispatchIsRetried(ttl, states, steps, n, m - 1);
      if id in states[m].seen {
        MarkComesFromBegin(ttl, states[m - 1], steps[m - 1], id);
      }
    }
  }

  lemma MarkComesFromBegin(ttl: int, s: State, step: Step, id: string)
    requires Enabled(s, step) && id in Next(ttl, s, step).seen
    ensures || (id in s.seen && s.seen[id] == Next(ttl, s, step).seen[id])
            || (step.Begin? && step.event == id && step.now == Next(ttl, s, step).seen[id])
  {
  }

  const START: State := State(map[], map[], [], 0)

  /** A run that meets such a failure, under a TTL of 10: the first dispatch marks at 0, outlives its
      mark, and fails after the second one has marked at 11. */
  lemma SlowDispatchBreaksDedup() returns (states: seq<State>, steps: seq<Step>)
    ensures IsRun(10, states, steps) && states[0] == START
    ensures states[|steps|].done == [Attempt("e", 11), Attempt("e", 13)]
    ensures |steps| > 2 && steps[2].Fail? && TakesAnothersMark(10, states[2], steps[2])
  {
    states, steps := SlowDispatchFails();
    states, steps := Grow(states, steps, Begin(3, "e", 13),
      State(map["e" := 13], map[2 := Attempt("e", 11), 3 := Attempt("e", 13)], [], 13));
    states, steps := Grow(states, steps, Succeed(2, 14),
      State(map["e" := 13], map[3 := Attempt("e", 13)], [Attempt("e", 11)], 14));
    states, steps := Grow(states, steps, Succeed(3, 15),
      State(map["e" := 13], map[], [Attempt("e", 11), Attempt("e", 13)], 15));
  }

  lemma Grow(states: seq<State>, steps: seq<Step>, step: Step, next: State)
    returns (more: seq<State>, moreSteps: seq<Step>)
    requires IsRun(10, states, steps) && Enabled(states[|steps|], step) && next == Next(10, states[|steps|], step)
    ensures IsRun(10, more, moreSteps) && moreSteps == steps + [step] && more == states + [next]
  {
    more, moreSteps := states + [next], steps + [step];
  }

  lemma SlowDispatchFails() returns (states: seq<State>, steps: seq<Step>)
    ensures IsRun(10, states, steps) && states[0] == START && |steps| == 3
    ensures states[3] == State(map[], map[2 := Attempt("e", 11)], [], 12)
    ensures steps[2].Fail? && TakesAnothersMark(10, states[2], steps[2])
  {
    var s1 := State(map["e" := 0], map[1 := Attempt("e", 0)], [], 0);
    var s2 := State(map["e" := 11], map[1 := Attempt("e", 0), 2 := Attempt("e", 11)], [], 11);
    states, steps := Grow([START], [], Begin(1, "e", 0), s1);
    assert Evict(10, s1.seen, 11) == map[];
    states, steps := Grow(states, steps, Begin(2, "e", 11), s2);
    states, steps := Grow(states, steps, Fail(1, 12), State(map[], map[2 := Attempt("e", 11)], [], 12));
  }

  // ---------------------------------------------------------------- per-persona threads

  datatype ThreadMark = ThreadMark(bot: string, thread: string, at: int)

  /** The map after a sequence of calls of markDispatchedThread. */
  function ThreadsAfter(marks: seq<ThreadMark>): Threads {
    if marks == [] then map[]
    else
      var last := marks[|marks| - 1];
      MarkThread(ThreadsAfter(marks[..|marks| - 1]), last.bot, last.thread, last.at)
  }

  /** The persona itself dispatched in the thread. */
  predicate Dispatched(marks: seq<ThreadMark>, bot: string, root: string) {
    exists i | 0 <= i < |marks| :: marks[i].bot == bot && marks[i].thread == root
  }

  /** What the bridge answers depends on the keys of the marks alone. */
  lemma {:induction false} KnownByKey(marks: seq<ThreadMark>, bot: string, root: string)
    ensures Knows(ThreadsAfter(marks), bot, root) <==>
              root != "" && exists i | 0 <= i < |marks| ::
                marks[i].thread != "" && ThreadKey(marks[i].bot, marks[i].thread) == ThreadKey(bot, root)
  {
    if marks != [] {
      var init := marks[..|marks| - 1];
      KnownByKey(init, bot, root);
      assert forall i | 0 <= i < |init| :: init[i] == marks[i];
    }
  }

  /** One name, followed by the separator, begins the other. */
  predicate Clash(a: string, b: string) {
    a + "|" <= b || b + "|" <= a
  }

  lemma KeySplits(a: string, t: string, b: string, u: string)
    requires ThreadKey(a, t) == ThreadKey(b, u) && |a| <= |b|
    ensures a == b ==> t == u
    ensures a != b ==> a + "|" <= b && '|' in t
  {
    var s := ThreadKey(a, t);
    assert s[..|a|] == a && s[|a|] == '|' && s[|a| + 1..] == t;
    assert s[..|b|] == b && s[|b|] == '|' && s[|b| + 1..] == u;
    if |a| == |b| {
      assert a == b;
    } else {
      assert b[..|a| + 1] == s[..|a| + 1] == a + "|";
      assert t[|b| - |a| - 1] == s[|b|] == '|';
    }
  }

  /** Two personas can share a thread key exactly when one's name and the separator begin the
      other's name. */
  lemma KeysCollideIff(a: string, b: string)
    requires a != b
    ensures (exists t, u :: t != "" && u != "" && ThreadKey(a, t) == ThreadKey(b, u)) <==> Clash(a, b)
  {
    if t, u :| t != "" && u != "" && ThreadKey(a, t) == ThreadKey(b, u) {
      if |a| <= |b| {
        KeySplits(a, t, b, u);
      } else {
        KeySplits(b, u, a, t);
      }
    }
    if a + "|" <= b {
      var t := SharedThread(a, b);
    } else if b + "|" <= a {
      var u := SharedThread(b, a);
    }
  }

  lemma SharedThread(a: string, b: string) returns (t: string)
    requires a + "|" <= b
    ensures t != "" && ThreadKey(a, t) == ThreadKey(b, "x")
  {
    var rest := b[|a| + 1..];
    t := rest + "|x";
    assert b == a + "|" + rest;
    assert ThreadKey(b, "x") == a + "|" + rest + "|" + "x" == a + "|" + t;
  }

  /** Whatever the names, identifiers without '|' never collide: no event ID has one. */
  lemma PlainThreadsNeverCollide(a: string, t: string, b: string, u: string)
    requires '|' !in t && '|' !in u && ThreadKey(a, t) == ThreadKey(b, u)
    ensures a == b && t == u
  {
    if |a| <= |b| {
      KeySplits(a, t, b, u);
    } else {
      KeySplits(b, u, a, t);
    }
  }

  ghost predicate AnswersForItself(marks: seq<ThreadMark>, bot: string, root: string) {
    Knows(ThreadsAfter(marks), bot, root) <==> root != "" && Dispatched(marks, bot, root)
  }

  ghost predicate MarkedBy(bots: set<string>, marks: seq<ThreadMark>) {
    forall i | 0 <= i < |marks| :: marks[i].bot in bots
  }

  /** Each of the personas knows exactly the threads it dispatched in itself, after any marks. */
  ghost predicate PerPersona(bots: set<string>) {
    forall marks, bot, root :: MarkedBy(bots, marks) && bot in bots ==> AnswersForItself(marks, bot, root)
  }

  lemma NoClashAnswersForItself(bots: set<string>, marks: seq<ThreadMark>, bot: string, root: string)
    requires MarkedBy(bots, marks) && bot in bots
    requires forall a, b | a in bots && b in bots && a != b :: !Clash(a, b)
    ensures AnswersForItself(marks, bot, root)
  {
    KnownByKey(marks, bot, root);
    forall i | 0 <= i < |marks| && marks[i].thread != "" && root != ""
             && ThreadKey(marks[i].bot, marks[i].thread) == ThreadKey(bot, root)
      ensures marks[i].bot == bot && marks[i].thread == root
    {
      if marks[i].bot != bot {
        KeysCollideIff(marks[i].bot, bot);
      } else {
        KeySplits(bot, marks[i].thread, bot, root);
      }
    }
  }

  /** A set of personas keeps its threads apart exactly when no name and the separator begin
      another's name. */
  lemma KnownThreadsArePerPersonaIff(bots: set<string>)
    ensures PerPersona(bots) <==> forall a, b | a in bots && b in bots && a != b :: !Clash(a, b)
  {
    if forall a, b | a in bots && b in bots && a != b :: !Clash(a, b) {
      forall marks, bot, root | MarkedBy(bots, marks) && bot in bots ensures AnswersForItself(marks, bot, root) {
        NoClashAnswersForItself(bots, marks, bot, root);
      }
    } else {
      var a, b :| a in bots && b in bots && a != b && Clash(a, b);
      KeysCollideIff(a, b);
      var t, u :| t != "" && u != "" && ThreadKey(a, t) == ThreadKey(b, u);
      var marks := [ThreadMark(a, t, 0)];
      KnownByKey(marks, b, u);
      assert marks[0].thread != "" && Knows(ThreadsAfter(marks), b, u);
      assert MarkedBy(bots, marks) && !AnswersForItself(marks, b, u);
    }
  }

  /** And whatever the names, when the marked threads and the one asked for have no '|' in them. */
  lemma KnownThreadsArePerPersona(marks: seq<ThreadMark>, bot: string, root: string)
    requires '|' !in root && forall i | 0 <= i < |marks| :: '|' !in marks[i].thread
    ensures Knows(ThreadsAfter(marks), bot, root) <==> root != "" && Dispatched(marks, bot, root)
  {
    KnownByKey(marks, bot, root);
    forall i | 0 <= i < |marks| && ThreadKey(marks[i].bot, marks[i].thread) == ThreadKey(bot, root)
      ensures marks[i].bot == bot && marks[i].thread == root
    {
      PlainThreadsNeverCollide(marks[i].bot, marks[i].thread, bot, root);
    }
  }
}
