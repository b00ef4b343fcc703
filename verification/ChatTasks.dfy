/** The chat task manager's confirmation flow: prompt, confirm, cancel, expire, per thread.

    Intent detection and text normalisation (trim, lower-case) are parameters, and so are the
    clock and whether the dispatcher accepts a call. */
module ChatTasks {
  import opened Wrappers
  import Schedules

  datatype Request = Request(bot: string, instruction: string, schedule: Schedules.Schedule)

  datatype Intent = Intent(request: Request, createdAt: int)

  datatype Call = Call(
    bot: string, instruction: string, schedule: Schedules.Schedule, source: string, thread: string, title: string)

  datatype Response = Prompted(intent: Intent) | Dispatched(call: Call)
    | DispatchFailed(call: Call) | Cancelled | NotHandled

  datatype Config = Config(ttl: int, detect: string -> Option<Request>, normalise: string -> string)

  datatype Message = Message(thread: string, text: string, source: string, now: int, dispatcherOk: bool)

  predicate IsConfirmation(text: string) {
    text in {"yes", "y", "confirm", "ok", "sure", "do it", "go ahead"}
  }

  predicate IsCancellation(text: string) {
    text in {"no", "cancel", "nevermind", "stop"}
  }

  type Pending = map<string, Intent>

  predicate Expired(c: Config, intent: Intent, now: int) {
    c.ttl > 0 && now - intent.createdAt > c.ttl
  }

  function CallOf(intent: Intent, m: Message): Call {
    var r := intent.request;
    Call(r.bot, r.instruction, r.schedule, m.source, m.thread, r.instruction)
  }

  function LoadPending(c: Config, pending: Pending, thread: string, now: int): (Pending, Option<Intent>) {
    if thread !in pending then (pending, None)
    else if Expired(c, pending[thread], now) then (pending - {thread}, None)
    else (pending, Some(pending[thread]))
  }

  function Handle(c: Config, pending: Pending, m: Message): (Pending, Response) {
    var (loaded, found) := LoadPending(c, pending, m.thread, m.now);
    var text := c.normalise(m.text);
    if found.Some? && IsConfirmation(text) then
      (loaded - {m.thread},
       if m.dispatcherOk then Dispatched(CallOf(found.value, m)) else DispatchFailed(CallOf(found.value, m)))
    else if found.Some? && IsCancellation(text) then (loaded - {m.thread}, Cancelled)
    else match c.detect(m.text)
      case Some(r) => (loaded[m.thread := Intent(r, m.now)], Prompted(Intent(r, m.now)))
      case None => (loaded, NotHandled)
  }

  class ChatTaskManager {
    const config: Config
    var pendingMap: map<string, Intent>

    constructor (config: Config)
      ensures this.config == config && pendingMap == map[]
    {
      this.config := config;
      pendingMap := map[];
    }

    method Load(thread: string, now: int) returns (found: Option<Intent>)
      modifies this
      ensures (pendingMap, found) == LoadPending(config, old(pendingMap), thread, now)
    {
      if thread !in pendingMap {
        return None;
      }
      var intent := pendingMap[thread];
      if config.ttl > 0 && now - intent.createdAt > config.ttl {
        pendingMap := pendingMap - {thread};
        return None;
      }
      return Some(intent);
    }

    method DetectAndHandle(m: Message) returns (response: Response)
      modifies this
      ensures (pendingMap, response) == Handle(config, old(pendingMap), m)
    {
      var text := config.normalise(m.text);
      var found := Load(m.thread, m.now);
      if found.Some? {
        if IsConfirmation(text) {
          pendingMap := pendingMap - {m.thread};
          var call := CallOf(found.value, m);
          return if m.dispatcherOk then Dispatched(call) else DispatchFailed(call);
        }
        if IsCancellation(text) {
          pendingMap := pendingMap - {m.thread};
          return Cancelled;
        }
      }
      match config.detect(m.text)
      case Some(r) =>
        pendingMap := pendingMap[m.thread := Intent(r, m.now)];
        return Prompted(Intent(r, m.now));
      case None =>
        return NotHandled;
    }
  }

  // ---------------------------------------------------------------- histories

  function After(c: Config, h: seq<Message>): Pending {
    if h == [] then map[] else Handle(c, After(c, h[..|h| - 1]), h[|h| - 1]).0
  }

  function ResponseAt(c: Config, h: seq<Message>, i: nat): Response
    requires i < |h|
  {
    Handle(c, After(c, h[..i]), h[i]).1
  }

  lemma AfterStep(c: Config, h: seq<Message>, n: nat)
    requires n < |h|
    ensures After(c, h[..n + 1]) == Handle(c, After(c, h[..n]), h[n]).0
  {
    assert h[..n + 1][..n] == h[..n];
  }

  ghost predicate ClockForward(h: seq<Message>) {
    forall i, j | 0 <= i < j < |h| :: h[i].now <= h[j].now
  }

  /** Message j prompted, and since then its thread has seen neither a new prompt, nor a
      confirmation or cancellation that took effect: it is the thread's latest unanswered prompt
      when message n arrives. */
  ghost predicate LatestPrompt(c: Config, h: seq<Message>, n: nat, j: nat) {
    && j < n < |h|
    && h[j].thread == h[n].thread
    && ResponseAt(c, h, j).Prompted?
    && forall k | j < k < n && h[k].thread == h[n].thread :: ResponseAt(c, h, k).NotHandled?
  }

  /** The same, for a thread rather than a message. */
  ghost predicate Open(c: Config, h: seq<Message>, n: nat, thread: string, j: nat) {
    && j < n <= |h|
    && h[j].thread == thread
    && ResponseAt(c, h, j).Prompted?
    && forall k | j < k < n && h[k].thread == thread :: ResponseAt(c, h, k).NotHandled?
  }

  lemma PromptedIntent(c: Config, h: seq<Message>, j: nat)
    requires j < |h| && ResponseAt(c, h, j).Prompted?
    ensures ResponseAt(c, h, j).intent.createdAt == h[j].now
    ensures c.detect(h[j].text) == Some(ResponseAt(c, h, j).intent.request)
  {
  }

  /** One message's effect on a thread's pending intent: another thread's message has none, a
      prompt replaces it, an unhandled message keeps it or finds it expired, anything else clears it. */
  lemma HandleEffect(c: Config, pending: Pending, m: Message, thread: string)
    ensures var (next, response) := Handle(c, pending, m);
            && (m.thread != thread ==> SameFor(next, pending, thread))
            && (m.thread == thread && response.Prompted? ==> thread in next && next[thread] == response.intent)
            && (m.thread == thread && response.NotHandled? ==>
                  if thread in pending && !Expired(c, pending[thread], m.now) then SameFor(next, pending, thread)
                  else thread !in next)
            && (m.thread == thread && !response.Prompted? && !response.NotHandled? ==> thread !in next)
  {
  }

  /** The last message of a history with an intent stored for the thread either prompted for it
      or left it as it was. */
  lemma StoredBefore(c: Config, h: seq<Message>, n: nat, thread: string)
    requires 0 < n <= |h| && thread in After(c, h[..n])
    ensures
      || (h[n - 1].thread == thread && ResponseAt(c, h, n - 1) == Prompted(After(c, h[..n])[thread]))
      || (&& thread in After(c, h[..n - 1]) && After(c, h[..n - 1])[thread] == After(c, h[..n])[thread]
          && (h[n - 1].thread == thread ==> ResponseAt(c, h, n - 1).NotHandled?))
  {
    AfterStep(c, h, n - 1);
    HandleEffect(c, After(c, h[..n - 1]), h[n - 1], thread);
  }

  lemma OpenExtends(c: Config, h: seq<Message>, n: nat, thread: string, j: nat)
    requires 0 < n <= |h| && Open(c, h, n - 1, thread, j)
    requires h[n - 1].thread == thread ==> ResponseAt(c, h, n - 1).NotHandled?
    ensures Open(c, h, n, thread, j)
  {
  }

  /** What is stored comes from the thread's open prompt. */
  lemma {:induction false} StoredIsOpen(c: Config, h: seq<Message>, n: nat, thread: string) returns (j: nat)
    requires n <= |h| && thread in After(c, h[..n])
    ensures Open(c, h, n, thread, j) && ResponseAt(c, h, j) == Prompted(After(c, h[..n])[thread])
  {
    StoredBefore(c, h, n, thread);
    if h[n - 1].thread == thread && ResponseAt(c, h, n - 1).Prompted? {
      j := n - 1;
    } else {
      j := StoredIsOpen(c, h, n - 1, thread);
      OpenExtends(c, h, n, thread, j);
    }
  }

  ghost predicate StoredOrExpired(c: Config, h: seq<Message>, n: nat, thread: string, intent: Intent)
    requires 0 < n <= |h|
  {
    || (thread in After(c, h[..n]) && After(c, h[..n])[thread] == intent)
    || Expired(c, intent, h[n - 1].now)
  }

  lemma StaysStored(c: Config, h: seq<Message>, n: nat, thread: string, intent: Intent)
    requires 1 < n <= |h| && ClockForward(h) && StoredOrExpired(c, h, n - 1, thread, intent)
    requires h[n - 1].thread == thread ==> ResponseAt(c, h, n - 1).NotHandled?
    ensures StoredOrExpired(c, h, n, thread, intent)
  {
    AfterStep(c, h, n - 1);
    HandleEffect(c, After(c, h[..n - 1]), h[n - 1], thread);
    assert h[n - 2].now <= h[n - 1].now;
  }

  lemma PromptIsStored(c: Config, h: seq<Message>, j: nat)
    requires j < |h| && ResponseAt(c, h, j).Prompted?
    ensures StoredOrExpired(c, h, j + 1, h[j].thread, ResponseAt(c, h, j).intent)
  {
    AfterStep(c, h, j);
    HandleEffect(c, After(c, h[..j]), h[j], h[j].thread);
  }

  /** An open prompt is stored until it expires. */
  lemma {:induction false} OpenIsStored(c: Config, h: seq<Message>, n: nat, thread: string, j: nat)
    requires ClockForward(h) && Open(c, h, n, thread, j)
    ensures StoredOrExpired(c, h, n, thread, ResponseAt(c, h, j).intent)
  {
    if j < n - 1 {
      OpenIsStored(c, h, n - 1, thread, j);
      StaysStored(c, h, n, thread, ResponseAt(c, h, j).intent);
    } else {
      PromptIsStored(c, h, j);
    }
  }

  predicate Confirmed(r: Response) {
    r.Dispatched? || r.DispatchFailed?
  }

  /** A dispatch happens on a message exactly when it is a confirmation and its thread's latest
      unanswered prompt is within the TTL. */
  lemma DispatchIff(c: Config, h: seq<Message>, i: nat)
    requires ClockForward(h) && i < |h|
    ensures Confirmed(ResponseAt(c, h, i)) <==>
              && IsConfirmation(c.normalise(h[i].text))
              && exists j: nat :: LatestPrompt(c, h, i, j) && !(c.ttl > 0 && h[i].now - h[j].now > c.ttl)
  {
    var thread := h[i].thread;
    if Confirmed(ResponseAt(c, h, i)) {
      var j := StoredIsOpen(c, h, i, thread);
      PromptedIntent(c, h, j);
      assert LatestPrompt(c, h, i, j);
    } else if j: nat :| LatestPrompt(c, h, i, j) && !(c.ttl > 0 && h[i].now - h[j].now > c.ttl) {
      PromptedIntent(c, h, j);
      OpenIsStored(c, h, i, thread, j);
    }
  }

  /** A dispatch carries exactly the bot, instruction and schedule that its prompt detected, and
      the confirming message's source and thread. */
  lemma DispatchCarriesPrompt(c: Config, h: seq<Message>, i: nat, j: nat)
    requires i < |h| && Confirmed(ResponseAt(c, h, i)) && LatestPrompt(c, h, i, j)
    ensures c.detect(h[j].text).Some?
    ensures var r := c.detect(h[j].text).value;
            ResponseAt(c, h, i).call == Call(r.bot, r.instruction, r.schedule, h[i].source, h[i].thread, r.instruction)
  {
    var p := StoredIsOpen(c, h, i, h[i].thread);
    assert p == j;
    PromptedIntent(c, h, j);
  }

  /** No prompt is dispatched twice. */
  lemma OneDispatchPerPrompt(c: Config, h: seq<Message>, i: nat, k: nat, j: nat)
    requires i < |h| && k < |h| && Confirmed(ResponseAt(c, h, i)) && Confirmed(ResponseAt(c, h, k))
    requires LatestPrompt(c, h, i, j) && LatestPrompt(c, h, k, j)
    ensures i == k
  {
  }

  // ---------------------------------------------------------------- the flow without the map

  // What a message is answered, said of the messages alone: no map, no deletion, no earlier answer.

  const YES: set<string> := {"yes", "y", "confirm", "ok", "sure", "do it", "go ahead"}
  const NO: set<string> := {"no", "cancel", "nevermind", "stop"}

  ghost predicate WithinTTL(c: Config, h: seq<Message>, j: nat, n: nat)
    requires j < |h| && n < |h|
  {
    c.ttl <= 0 || h[n].now - h[j].now <= c.ttl
  }

  /** The request that a thread's next answer would be about: the last one detected, unless it has been
      answered yes or no within the TTL since. */
  ghost function Awaiting(c: Config, h: seq<Message>, n: nat, thread: string): (j: Option<nat>)
    requires n <= |h|
    ensures j.Some? ==> j.value < n && h[j.value].thread == thread && c.detect(h[j.value].text).Some?
  {
    if n == 0 then None
    else
      var before := Awaiting(c, h, n - 1, thread);
      if h[n - 1].thread != thread then before
      else if before.Some? && WithinTTL(c, h, before.value, n - 1) && c.normalise(h[n - 1].text) in YES + NO then None
      else if c.detect(h[n - 1].text).Some? then Some(n - 1)
      else before
  }

  /** The map holds what is awaited, unless that has expired. */
  ghost predicate Mirrors(c: Config, pending: Pending, thread: string, awaited: Option<Intent>, now: int) {
    match awaited
    case None => thread !in pending
    case Some(intent) => if thread in pending then pending[thread] == intent else Expired(c, intent, now)
  }

  /** The request awaited, and when it was made. */
  ghost function Awaited(c: Config, h: seq<Message>, n: nat, thread: string): Option<Intent>
    requires n <= |h|
  {
    match Awaiting(c, h, n, thread)
    case None => None
    case Some(j) => Some(Intent(c.detect(h[j].text).value, h[j].now))
  }

  /** What one message does to the request awaited. */
  ghost function NextAwaited(c: Config, awaited: Option<Intent>, m: Message): Option<Intent> {
    if awaited.Some? && !Expired(c, awaited.value, m.now) && c.normalise(m.text) in YES + NO then None
    else match c.detect(m.text)
      case Some(r) => Some(Intent(r, m.now))
      case None => awaited
  }

  lemma MessageMirrors(c: Config, pending: Pending, m: Message, thread: string, awaited: Option<Intent>, now: int)
    requires now <= m.now && Mirrors(c, pending, thread, awaited, now)
    ensures Mirrors(c, Handle(c, pending, m).0, thread,
                    if m.thread == thread then NextAwaited(c, awaited, m) else awaited, m.now)
  {
  }

  lemma AwaitedStep(c: Config, h: seq<Message>, n: nat, thread: string)
    requires 0 < n <= |h|
    ensures Awaited(c, h, n, thread) ==
              if h[n - 1].thread == thread then NextAwaited(c, Awaited(c, h, n - 1, thread), h[n - 1])
              else Awaited(c, h, n - 1, thread)
  {
  }

  lemma {:induction false} MapMirrors(c: Config, h: seq<Message>, n: nat, thread: string)
    requires ClockForward(h) && n <= |h|
    ensures Mirrors(c, After(c, h[..n]), thread, Awaited(c, h, n, thread), if n == 0 then 0 else h[n - 1].now)
  {
    if n > 0 {
      MapMirrors(c, h, n - 1, thread);
      AfterStep(c, h, n - 1);
      AwaitedStep(c, h, n, thread);
      MessageMirrors(c, After(c, h[..n - 1]), h[n - 1], thread, Awaited(c, h, n - 1, thread),
                     if n == 1 then h[0].now else h[n - 2].now);
    }
  }

  /** Every answer follows from the messages: a yes to a live request dispatches it, a no cancels it,
      anything else that reads as a request is prompted for, and the rest is not handled. */
  lemma AnswersFollow(c: Config, h: seq<Message>, i: nat)
    requires ClockForward(h) && i < |h|
    ensures var (m, j) := (h[i], Awaiting(c, h, i, h[i].thread));
            var word := c.normalise(m.text);
            var live := j.Some? && (c.ttl <= 0 || m.now - h[j.value].now <= c.ttl);
            ResponseAt(c, h, i) ==
              if live && word in {"yes", "y", "confirm", "ok", "sure", "do it", "go ahead"} then
                var r := c.detect(h[j.value].text).value;
                var call := Call(r.bot, r.instruction, r.schedule, m.source, m.thread, r.instruction);
                if m.dispatcherOk then Dispatched(call) else DispatchFailed(call)
              else if live && word in {"no", "cancel", "nevermind", "stop"} then Cancelled
              else if c.detect(m.text).Some? then Prompted(Intent(c.detect(m.text).value, m.now))
              else NotHandled
  {
    MapMirrors(c, h, i, h[i].thread);
    if i > 0 {
      assert h[i - 1].now <= h[i].now;
    }
  }

  /** Once a request has been dispatched, refused by the dispatcher or cancelled, nothing on its thread
      is taken for an answer until a message reads as a new request, whatever the clocks say. */
  lemma AnsweredOnce(c: Config, h: seq<Message>, i: nat, k: nat)
    requires i < k < |h| && h[i].thread == h[k].thread
    requires ResponseAt(c, h, i) == Cancelled || Confirmed(ResponseAt(c, h, i))
    requires forall m | i < m <= k && h[m].thread == h[i].thread :: c.detect(h[m].text).None?
    ensures ResponseAt(c, h, k) == NotHandled
  {
    NothingStored(c, h, i, k);
  }

  lemma {:induction false} NothingStored(c: Config, h: seq<Message>, i: nat, n: nat)
    requires i < n <= |h|
    requires ResponseAt(c, h, i) == Cancelled || Confirmed(ResponseAt(c, h, i))
    requires forall m | i < m < n && h[m].thread == h[i].thread :: c.detect(h[m].text).None?
    ensures h[i].thread !in After(c, h[..n])
  {
    AfterStep(c, h, n - 1);
    HandleEffect(c, After(c, h[..n - 1]), h[n - 1], h[i].thread);
    if i < n - 1 {
      NothingStored(c, h, i, n - 1);
      NothingComesBack(c, After(c, h[..n - 1]), h[n - 1], h[i].thread);
    }
  }

  lemma NothingComesBack(c: Config, pending: Pending, m: Message, thread: string)
    requires thread !in pending && (m.thread == thread ==> c.detect(m.text).None?)
    ensures thread !in Handle(c, pending, m).0
  {
  }

  // ---------------------------------------------------------------- threads do not interfere

  function OnThread(h: seq<Message>, thread: string): seq<Message> {
    if h == [] then []
    else
      var before := OnThread(h[..|h| - 1], thread);
      if h[|h| - 1].thread == thread then before + [h[|h| - 1]] else before
  }

  predicate SameFor(p: Pending, q: Pending, thread: string) {
    (thread in p <==> thread in q) && (thread in p ==> p[thread] == q[thread])
  }

  /** A thread's pending intent after a history is what the thread's own messages leave. */
  lemma {:induction false} ThreadStateIsLocal(c: Config, h: seq<Message>, thread: string)
    ensures SameFor(After(c, h), After(c, OnThread(h, thread)), thread)
    decreases |h|
  {
    if h != [] {
      var init, last := h[..|h| - 1], h[|h| - 1];
      ThreadStateIsLocal(c, init, thread);
      var before := OnThread(init, thread);
      if last.thread == thread {
        assert (before + [last])[..|before|] == before;
      }
    }
  }

  /** The response to a message is the response it gets when every other thread's messages are
      taken out of the history. */
  lemma ThreadsIndependent(c: Config, h: seq<Message>, i: nat)
    requires i < |h|
    ensures ResponseAt(c, h, i) == Handle(c, After(c, OnThread(h[..i], h[i].thread)), h[i]).1
  {
    ThreadStateIsLocal(c, h[..i], h[i].thread);
  }
}
