/** Thread roots: trigger classification, NIP-10 root candidates, reply tagging, and the channel
    monitor that dispatches on them.

    A string is a sequence of characters; content length is that of its UTF-8 encoding. */
module Threads {
  import opened Wrappers
  import opened Text

  type Tag = seq<string>

  datatype Event = Event(id: string, pubkey: string, kind: int, tags: seq<Tag>, content: string)

  const KIND_CHANNEL_MESSAGE := 9
  const MAX_CONTENT: nat := 64 * 1024
  const SHUTDOWN := "!shutdown"

  // ---------------------------------------------------------------- tags

  predicate IsMarked(t: Tag, mark: string) {
    |t| >= 4 && t[0] == "e" && t[3] == mark
  }

  /** The first root-marked e tag's event, if any. */
  function RootMark(tags: seq<Tag>): Option<string> {
    if tags == [] then None
    else if IsMarked(tags[0], "root") then Some(tags[0][1])
    else RootMark(tags[1..])
  }

  function RootEventID(evt: Event): string {
    match RootMark(evt.tags)
    case Some(id) => id
    case None => evt.id
  }

  predicate HasTagValue(tags: seq<Tag>, name: string, value: string) {
    exists i | 0 <= i < |tags| :: |tags[i]| >= 2 && tags[i][0] == name && tags[i][1] == value
  }

  predicate IsETag(t: Tag) {
    |t| >= 2 && t[0] == "e"
  }

  function ETags(tags: seq<Tag>): (es: seq<Tag>)
    ensures forall i | 0 <= i < |es| :: IsETag(es[i])
    ensures forall t :: t in es <==> t in tags && IsETag(t)
  {
    if tags == [] then []
    else
      var before := ETags(tags[..|tags| - 1]);
      var last := tags[|tags| - 1];
      assert tags == tags[..|tags| - 1] + [last];
      if IsETag(last) then before + [last] else before
  }

  /** The events of the e tags that carry a mark, in order. */
  function MarkedIds(es: seq<Tag>, mark: string): seq<string> {
    if es == [] then []
    else
      var before := MarkedIds(es[..|es| - 1], mark);
      if IsMarked(es[|es| - 1], mark) then before + [es[|es| - 1][1]] else before
  }

  function Add(candidates: seq<string>, id: string): seq<string> {
    if id == "" || id in candidates then candidates else candidates + [id]
  }

  function AddAll(candidates: seq<string>, ids: seq<string>): seq<string> {
    if ids == [] then candidates
    else Add(AddAll(candidates, ids[..|ids| - 1]), ids[|ids| - 1])
  }

  /** Root-marked first, then reply-marked, then the first and the last e tag. */
  function CandidateIds(tags: seq<Tag>): seq<string> {
    var es := ETags(tags);
    if es == [] then [] else MarkedIds(es, "root") + MarkedIds(es, "reply") + [es[0][1]] + [es[|es| - 1][1]]
  }

  function Candidates(tags: seq<Tag>): seq<string> {
    AddAll([], CandidateIds(tags))
  }

  lemma AddAllSnoc(candidates: seq<string>, ids: seq<string>, id: string)
    ensures AddAll(candidates, ids + [id]) == Add(AddAll(candidates, ids), id)
  {
    assert (ids + [id])[..|ids|] == ids;
  }

  lemma {:induction false} AddAllAppend(candidates: seq<string>, a: seq<string>, b: seq<string>)
    ensures AddAll(candidates, a + b) == AddAll(AddAll(candidates, a), b)
    decreases |b|
  {
    if b == [] {
      assert a + b == a;
    } else {
      assert (a + b)[..|a + b| - 1] == a + b[..|b| - 1];
      AddAllAppend(candidates, a, b[..|b| - 1]);
    }
  }

  /** The candidate list and the map of the identifiers already in it, added to step by step. */
  class CandidateList {
    var candidates: seq<string>
    var seen: set<string>

    ghost predicate Valid()
      reads this
    {
      forall id :: id in seen <==> id in candidates
    }

    constructor ()
      ensures Valid() && candidates == []
    {
      candidates, seen := [], {};
    }

    method AddId(id: string)
      requires Valid()
      modifies this
      ensures Valid() && candidates == Add(old(candidates), id)
    {
      if id != "" && id !in seen {
        seen := seen + {id};
        candidates := candidates + [id];
      }
    }

    /** One of the two loops over the e tags, for the mark it looks for. */
    method AddMarked(es: seq<Tag>, mark: string)
      requires Valid() && forall i | 0 <= i < |es| :: IsETag(es[i])
      modifies this
      ensures Valid() && candidates == AddAll(old(candidates), MarkedIds(es, mark))
    {
      for i := 0 to |es|
        invariant Valid() && candidates == AddAll(old(candidates), MarkedIds(es[..i], mark))
      {
        assert es[..i + 1][..i] == es[..i];
        var t := es[i];
        if |t| >= 4 && t[3] == mark {
          AddAllSnoc(old(candidates), MarkedIds(es[..i], mark), t[1]);
          AddId(t[1]);
        }
      }
      assert es[..|es|] == es;
    }
  }

  method CollectETags(tags: seq<Tag>) returns (es: seq<Tag>)
    ensures es == ETags(tags)
  {
    es := [];
    for i := 0 to |tags|
      invariant es == ETags(tags[..i])
    {
      var t := tags[i];
      assert tags[..i + 1][..i] == tags[..i];
      if |t| >= 2 && t[0] == "e" {
        es := es + [t];
      }
    }
    assert tags[..|tags|] == tags;
  }

  method ThreadReplyCandidates(evt: Event) returns (candidates: seq<string>)
    ensures candidates == Candidates(evt.tags)
  {
    var es := CollectETags(evt.tags);
    if es == [] {
      return [];
    }
    var list := new CandidateList();
    list.AddMarked(es, "root");
    list.AddMarked(es, "reply");
    list.AddId(es[0][1]);
    list.AddId(es[|es| - 1][1]);
    candidates := list.candidates;
    ghost var roots, replies := MarkedIds(es, "root"), MarkedIds(es, "reply");
    AddAllAppend([], roots, replies);
    AddAllSnoc([], roots + replies, es[0][1]);
    AddAllSnoc([], roots + replies + [es[0][1]], es[|es| - 1][1]);
  }

  ghost predicate NoDuplicates(s: seq<string>) {
    forall i, j | 0 <= i < j < |s| :: s[i] != s[j]
  }

  lemma {:induction false} AddAllSound(ids: seq<string>)
    ensures NoDuplicates(AddAll([], ids))
    ensures forall id :: id in AddAll([], ids) <==> id in ids && id != ""
  {
    if ids != [] {
      var init := ids[..|ids| - 1];
      AddAllSound(init);
      assert ids == init + [ids[|ids| - 1]];
    }
  }

  lemma {:induction false} MarkedIdsExact(es: seq<Tag>, mark: string, id: string)
    ensures id in MarkedIds(es, mark) <==> exists t :: t in es && IsMarked(t, mark) && t[1] == id
  {
    if es != [] {
      var init, last := es[..|es| - 1], es[|es| - 1];
      assert es == init + [last];
      MarkedIdsExact(init, mark, id);
    }
  }

  /** Candidates are distinct and not empty, and are exactly the events of the root-marked and
      reply-marked e tags and of the first and last e tag. */
  lemma CandidatesExact(tags: seq<Tag>, id: string)
    ensures NoDuplicates(Candidates(tags))
    ensures var es := ETags(tags);
      id in Candidates(tags) <==>
        && id != "" && es != []
        && (|| (exists t :: t in tags && (IsMarked(t, "root") || IsMarked(t, "reply")) && t[1] == id)
            || id == es[0][1] || id == es[|es| - 1][1])
  {
    AddAllSound(CandidateIds(tags));
    CandidateIdsExact(tags, id);
  }

  lemma CandidateIdsExact(tags: seq<Tag>, id: string)
    ensures var es := ETags(tags);
      id in CandidateIds(tags) <==>
        && es != []
        && (|| (exists t :: t in tags && (IsMarked(t, "root") || IsMarked(t, "reply")) && t[1] == id)
            || id == es[0][1] || id == es[|es| - 1][1])
  {
    MarkedInTags(tags, "root", id);
    MarkedInTags(tags, "reply", id);
  }

  lemma MarkedInTags(tags: seq<Tag>, mark: string, id: string)
    ensures id in MarkedIds(ETags(tags), mark) <==> exists t :: t in tags && IsMarked(t, mark) && t[1] == id
  {
    MarkedIdsExact(ETags(tags), mark, id);
    assert forall t :: IsMarked(t, mark) ==> IsETag(t);
  }

  /** An identifier stands where it was first added. */
  lemma {:induction false} AddAllOrder(ids: seq<string>, i: nat, j: nat) returns (p: nat)
    requires i < j < |AddAll([], ids)|
    ensures p < |ids| && ids[p] == AddAll([], ids)[i] && AddAll([], ids)[j] !in ids[..p + 1]
  {
    var init, last := ids[..|ids| - 1], ids[|ids| - 1];
    AddAllSound(init);
    assert ids == init + [last];
    if j < |AddAll([], init)| {
      p := AddAllOrder(init, i, j);
      assert ids[..p + 1] == init[..p + 1];
    } else {
      var id := AddAll([], init)[i];
      assert id in init;
      p :| 0 <= p < |init| && init[p] == id;
      assert forall k | 0 <= k <= p :: ids[k] == init[k];
    }
  }

  ghost predicate NamedBy(tags: seq<Tag>, mark: string, id: string) {
    exists t :: t in tags && IsMarked(t, mark) && t[1] == id
  }

  /** A candidate that a root mark names comes before all that none names; after those come the ones
      that a reply mark names, then the first e tag's. */
  lemma CandidateOrder(tags: seq<Tag>, i: nat, j: nat)
    requires i < j < |Candidates(tags)|
    ensures var (a, b) := (Candidates(tags)[i], Candidates(tags)[j]);
      && (NamedBy(tags, "root", b) ==> NamedBy(tags, "root", a))
      && (NamedBy(tags, "reply", b) ==> NamedBy(tags, "root", a) || NamedBy(tags, "reply", a))
      && (ETags(tags) != [] && b == ETags(tags)[0][1] ==> NamedBy(tags, "root", a) || NamedBy(tags, "reply", a))
  {
    var (a, b) := (Candidates(tags)[i], Candidates(tags)[j]);
    var es := ETags(tags);
    var roots, replies := MarkedIds(es, "root"), MarkedIds(es, "reply");
    var ids := CandidateIds(tags);
    var p := AddAllOrder(ids, i, j);
    MarkedIdsExact(es, "root", a);
    MarkedIdsExact(es, "root", b);
    MarkedIdsExact(es, "reply", a);
    MarkedIdsExact(es, "reply", b);
    MetBefore(ids, roots, [], replies + [es[0][1]] + [es[|es| - 1][1]], p, b);
    MetBefore(ids, replies, roots, [es[0][1]] + [es[|es| - 1][1]], p, b);
    MetBefore(ids, [es[0][1]], roots + replies, [es[|es| - 1][1]], p, b);
    assert p < |roots| + |replies| ==> ids[p] == if p < |roots| then roots[p] else replies[p - |roots|];
    AddAllSound(ids);
  }

  /** What lies in a stretch of the list has been met once the stretch is over. */
  lemma MetBefore(ids: seq<string>, part: seq<string>, before: seq<string>, rest: seq<string>, p: nat, id: string)
    requires ids == before + part + rest && p < |ids| && id !in ids[..p + 1]
    ensures id in part ==> p < |before| + |part|
  {
    if k :| 0 <= k < |part| && part[k] == id {
      assert ids[|before| + k] == id;
    }
  }

  /** Every candidate is the event of some e tag. */
  lemma CandidatesFromETags(tags: seq<Tag>, id: string)
    requires id in Candidates(tags)
    ensures exists t :: t in tags && IsETag(t) && t[1] == id
  {
    var es := ETags(tags);
    CandidatesExact(tags, id);
    assert es[0] in es && es[|es| - 1] in es;
  }

  lemma {:induction false} RootMarkSnoc(tags: seq<Tag>, t: Tag)
    ensures RootMark(tags + [t]) ==
            if RootMark(tags).Some? then RootMark(tags) else if IsMarked(t, "root") then Some(t[1]) else None
  {
    if tags == [] {
      assert tags + [t] == [t];
    } else {
      assert (tags + [t])[1..] == tags[1..] + [t];
      RootMarkSnoc(tags[1..], t);
    }
  }

  lemma {:induction false} RootMarkIsFirst(tags: seq<Tag>)
    ensures var ids := MarkedIds(ETags(tags), "root");
            RootMark(tags) == if ids == [] then None else Some(ids[0])
    decreases |tags|
  {
    if tags != [] {
      var init, last := tags[..|tags| - 1], tags[|tags| - 1];
      assert tags == init + [last];
      RootMarkIsFirst(init);
      RootMarkSnoc(init, last);
      var es := ETags(init);
      assert (es + [last])[..|es|] == es;
    }
  }

  lemma {:induction false} AddAllFirst(ids: seq<string>)
    requires ids != [] && ids[0] != ""
    ensures AddAll([], ids) != [] && AddAll([], ids)[0] == ids[0]
  {
    if |ids| > 1 {
      AddAllFirst(ids[..|ids| - 1]);
    } else {
      assert ids[..0] == [];
    }
  }

  /** The scans over the tags are fixed by what they do to one tag and to two lists laid end to end. */
  lemma {:induction false} ScansConcatenate(a: seq<Tag>, b: seq<Tag>, mark: string)
    ensures ETags(a + b) == ETags(a) + ETags(b)
    ensures MarkedIds(a + b, mark) == MarkedIds(a, mark) + MarkedIds(b, mark)
    decreases |b|
  {
    if b == [] {
      assert a + b == a;
    } else {
      assert (a + b)[..|a + b| - 1] == a + b[..|b| - 1];
      ScansConcatenate(a, b[..|b| - 1], mark);
    }
  }

  /** A mention's root is the event that the first root-marked e tag names, and without one the
      event itself. */
  lemma {:induction false} RootIsFirstMarked(evt: Event)
    ensures if exists i | 0 <= i < |evt.tags| :: IsMarked(evt.tags[i], "root")
            then exists i | 0 <= i < |evt.tags| ::
                   && IsMarked(evt.tags[i], "root") && evt.tags[i][1] == RootEventID(evt)
                   && forall k | 0 <= k < i :: !IsMarked(evt.tags[k], "root")
            else RootEventID(evt) == evt.id
    decreases |evt.tags|
  {
    if evt.tags != [] && !IsMarked(evt.tags[0], "root") {
      var rest := evt.(tags := evt.tags[1..]);
      RootIsFirstMarked(rest);
      assert RootEventID(rest) == RootEventID(evt);
      assert forall i | 0 <= i < |rest.tags| :: rest.tags[i] == evt.tags[i + 1];
      if i :| 0 <= i < |rest.tags| && IsMarked(rest.tags[i], "root") && rest.tags[i][1] == RootEventID(evt)
              && forall k | 0 <= k < i :: !IsMarked(rest.tags[k], "root") {
        assert evt.tags[i + 1] == rest.tags[i];
        assert forall k | 0 < k < i + 1 :: evt.tags[k] == rest.tags[k - 1];
      } else {
        assert forall i | 0 < i < |evt.tags| :: evt.tags[i] == rest.tags[i - 1];
      }
    }
  }

  /** The root that a mention of the event would use is the first thread candidate of the event. */
  lemma RootIsFirstCandidate(tags: seq<Tag>)
    requires RootMark(tags).Some? && RootMark(tags).value != ""
    ensures Candidates(tags) != [] && Candidates(tags)[0] == RootMark(tags).value
  {
    RootMarkIsFirst(tags);
    AddAllFirst(CandidateIds(tags));
  }

  // ---------------------------------------------------------------- replies

  function ReplyTags(channel: string, root: string, parent: string, author: string): seq<Tag> {
    [["h", channel], ["e", root, "", "root"]]
    + (if parent != "" && parent != root then [["e", parent, "", "reply"]] else [])
    + (if author != "" then [["p", author]] else [])
  }

  method PublishReply(channel: string, root: string, parent: string, author: string, content: string)
    returns (reply: Event)
    ensures reply == Event("", "", KIND_CHANNEL_MESSAGE, ReplyTags(channel, root, parent, author), content)
  {
    var tags := [["h", channel], ["e", root, "", "root"]];
    if parent != "" && parent != root {
      tags := tags + [["e", parent, "", "reply"]];
    }
    if author != "" {
      tags := tags + [["p", author]];
    }
    reply := Event("", "", KIND_CHANNEL_MESSAGE, tags, content);
  }

  /** A reply is read back as part of the thread it was sent into: its root is the root, its first
      candidate is the root, and its only other candidate is the parent. */
  lemma ReplyNamesRoot(channel: string, root: string, parent: string, author: string)
    ensures var tags := ReplyTags(channel, root, parent, author);
            RootMark(tags) == Some(root) && Candidates(tags) == Add(Add([], root), parent)
  {
    ReplyRootMark(channel, root, parent, author);
    ReplyCandidateIds(channel, root, parent, author);
    if parent != "" && parent != root {
      AddFour(root, parent, root, parent);
    } else {
      AddThree(root, root, root);
    }
  }

  lemma ReplyRootMark(channel: string, root: string, parent: string, author: string)
    ensures RootMark(ReplyTags(channel, root, parent, author)) == Some(root)
  {
    var tags := ReplyTags(channel, root, parent, author);
    assert tags[0] == ["h", channel] && tags[1] == ["e", root, "", "root"];
    assert tags[1..][0] == tags[1];
  }

  lemma ReplyCandidateIds(channel: string, root: string, parent: string, author: string)
    ensures CandidateIds(ReplyTags(channel, root, parent, author)) ==
            if parent != "" && parent != root then [root] + [parent] + [root] + [parent] else [root, root, root]
  {
    ReplyETags(channel, root, parent, author);
    var e, r := ["e", root, "", "root"], ["e", parent, "", "reply"];
    MarkedIdsSnoc([], e, "root");
    MarkedIdsSnoc([], e, "reply");
    if parent != "" && parent != root {
      MarkedIdsSnoc([e], r, "root");
      MarkedIdsSnoc([e], r, "reply");
    }
  }

  /** A reply mentions the author it answers, and no one else, and goes to its own channel only. */
  lemma ReplyAddressing(channel: string, root: string, parent: string, author: string, value: string)
    ensures var tags := ReplyTags(channel, root, parent, author);
      && (HasTagValue(tags, "p", value) <==> author != "" && value == author)
      && (HasTagValue(tags, "h", value) <==> value == channel)
  {
    var tags := ReplyTags(channel, root, parent, author);
    assert tags[0] == ["h", channel];
    assert forall i | 0 < i < |tags| :: tags[i][0] == "e" || tags[i] == ["p", author];
    if author != "" {
      assert tags[|tags| - 1] == ["p", author];
    }
  }

  lemma MarkedIdsSnoc(es: seq<Tag>, t: Tag, mark: string)
    ensures MarkedIds(es + [t], mark) == MarkedIds(es, mark) + (if IsMarked(t, mark) then [t[1]] else [])
  {
    assert (es + [t])[..|es|] == es;
  }

  lemma AddThree(a: string, b: string, c: string)
    ensures AddAll([], [a, b, c]) == Add(Add(Add([], a), b), c)
  {
    AddAllSnoc([], [], a);
    AddAllSnoc([], [a], b);
    AddAllSnoc([], [a, b], c);
    assert [] + [a] == [a] && [a] + [b] == [a, b] && [a, b] + [c] == [a, b, c];
  }

  lemma AddFour(a: string, b: string, c: string, d: string)
    ensures AddAll([], [a] + [b] + [c] + [d]) == Add(Add(Add(Add([], a), b), c), d)
  {
    AddThree(a, b, c);
    AddAllSnoc([], [a, b, c], d);
    assert [a] + [b] + [c] + [d] == [a, b, c] + [d];
  }

  lemma ReplyETags(channel: string, root: string, parent: string, author: string)
    ensures ETags(ReplyTags(channel, root, parent, author)) ==
            [["e", root, "", "root"]] + (if parent != "" && parent != root then [["e", parent, "", "reply"]] else [])
  {
    var h, e, r, p := ["h", channel], ["e", root, "", "root"], ["e", parent, "", "reply"], ["p", author];
    HeaderETags(h, e);
    var front := if parent != "" && parent != root then [h, e] + [r] else [h, e];
    ETagsSnoc([h, e], r);
    ETagsSnoc(front, p);
    assert ReplyTags(channel, root, parent, author) == if author != "" then front + [p] else front;
  }

  lemma HeaderETags(h: Tag, e: Tag)
    requires !IsETag(h) && IsETag(e)
    ensures ETags([h, e]) == [e]
  {
    ETagsSnoc([], h);
    ETagsSnoc([h], e);
    assert [] + [h] == [h] && [h] + [e] == [h, e];
  }

  lemma ETagsSnoc(tags: seq<Tag>, t: Tag)
    ensures ETags(tags + [t]) == ETags(tags) + (if IsETag(t) then [t] else [])
  {
    assert (tags + [t])[..|tags|] == tags;
  }

  // ---------------------------------------------------------------- the monitor

  /** An author gate with neither a name nor a list lets everyone in; an empty list lets no one in. */
  datatype AuthorGate = AuthorGate(respondTo: string, allowlist: Option<seq<string>>)

  predicate Allows(g: AuthorGate, pubkey: string) {
    || (g.respondTo == "" && g.allowlist.None?)
    || (g.respondTo != "" && pubkey == g.respondTo)
    || (g.allowlist.Some? && pubkey in g.allowlist.value)
  }

  /** `bridged` says whether a task dispatcher is wired; without one nothing is known about threads. */
  datatype Config = Config(self: string, gate: AuthorGate, bridged: bool)

  function ByteLength(s: string): nat {
    if s == "" then 0
    else
      var c := s[|s| - 1];
      ByteLength(s[..|s| - 1])
      + if c < '\U{80}' then 1 else if c < '\U{800}' then 2 else if c < '\U{10000}' then 3 else 4
  }

  /** The length of a text is the sum of its parts' lengths, and a character's is one to four bytes. */
  lemma {:induction false} ByteLengthParts(a: string, b: string)
    ensures ByteLength(a + b) == ByteLength(a) + ByteLength(b)
    ensures |b| <= ByteLength(b) <= 4 * |b|
    decreases |b|
  {
    if b == [] {
      assert a + b == a;
    } else {
      assert (a + b)[..|a + b| - 1] == a + b[..|b| - 1];
      ByteLengthParts(a, b[..|b| - 1]);
    }
  }

  /** UTF-8 spends a byte on 7 bits, two on 11, three on 16 and four on the rest. */
  lemma CharacterLength(c: char)
    ensures ByteLength([c]) ==
              if c as int < 128 then 1 else if c as int < 2048 then 2 else if c as int < 65_536 then 3 else 4
  {
    assert [c][..0] == "";
  }

  predicate Mentions(c: Config, evt: Event) {
    evt.kind == KIND_CHANNEL_MESSAGE && HasTagValue(evt.tags, "p", c.self)
  }

  /** The first candidate this persona has dispatched in. */
  function FirstKnown(known: set<string>, candidates: seq<string>): Option<string> {
    if candidates == [] then None
    else if candidates[0] != "" && candidates[0] in known then Some(candidates[0])
    else FirstKnown(known, candidates[1..])
  }

  function MatchKnownThread(known: set<string>, evt: Event): Option<string> {
    if evt.kind != KIND_CHANNEL_MESSAGE then None else FirstKnown(known, Candidates(evt.tags))
  }

  /** Not from the bot itself, not a command, not blank, not oversized, from an allowed author. */
  predicate Admitted(c: Config, evt: Event) {
    && evt.pubkey != c.self
    && TrimSpace(evt.content) != SHUTDOWN
    && TrimSpace(evt.content) != ""
    && ByteLength(evt.content) <= MAX_CONTENT
    && Allows(c.gate, evt.pubkey)
  }

  /** The thread root an event is handed on with, to the bridge or the bot's queue, if it is at all. */
  function DispatchRoot(c: Config, known: set<string>, evt: Event): Option<string> {
    if !Admitted(c, evt) then None
    else if Mentions(c, evt) then Some(RootEventID(evt))
    else if !c.bridged then None
    else MatchKnownThread(known, evt)
  }

  /** The bridge records the thread of every dispatch it does not reject as a duplicate. */
  function NewThread(c: Config, known: set<string>, evt: Event, duplicate: bool): set<string> {
    var root := DispatchRoot(c, known, evt);
    if c.bridged && root.Some? && !duplicate && root.value != "" then {root.value} else {}
  }

  function KnownAfter(c: Config, known: set<string>, evt: Event, duplicate: bool): set<string> {
    known + NewThread(c, known, evt, duplicate)
  }

  class Monitor {
    const config: Config
    /** The threads the bridge knows for this persona. */
    var known: set<string>
    /** What was handed on, to the bridge or the queue: event and thread. */
    var dispatches: seq<(string, string)>

    constructor (config: Config)
      ensures this.config == config && known == {} && dispatches == []
    {
      this.config := config;
      known, dispatches := {}, [];
    }

    method Match(evt: Event) returns (root: Option<string>)
      ensures root == MatchKnownThread(known, evt)
    {
      if evt.kind != KIND_CHANNEL_MESSAGE {
        return None;
      }
      var candidates := ThreadReplyCandidates(evt);
      for i := 0 to |candidates|
        invariant FirstKnown(known, candidates) == FirstKnown(known, candidates[i..])
      {
        if candidates[i] != "" && candidates[i] in known {
          return Some(candidates[i]);
        }
      }
      return None;
    }

    method Dispatch(root: string, evt: Event, duplicate: bool)
      modifies this
      ensures var goes := TrimSpace(evt.content) != "" && ByteLength(evt.content) <= MAX_CONTENT
                        && Allows(config.gate, evt.pubkey);
        && dispatches == old(dispatches) + (if goes then [(evt.id, root)] else [])
        && known == (if goes && config.bridged && !duplicate && root != "" then old(known) + {root} else old(known))
    {
      if TrimSpace(evt.content) == "" {
        return;
      }
      if ByteLength(evt.content) > MAX_CONTENT {
        return;
      }
      if !Allows(config.gate, evt.pubkey) {
        return;
      }
      dispatches := dispatches + [(evt.id, root)];
      if config.bridged && !duplicate && root != "" {
        known := known + {root};
      }
    }

    method HandleChannelEvent(evt: Event, duplicate: bool)
      modifies this
      ensures var root := DispatchRoot(config, old(known), evt);
              dispatches == old(dispatches) + (if root.Some? then [(evt.id, root.value)] else [])
      ensures known == KnownAfter(config, old(known), evt, duplicate)
    {
      if evt.pubkey == config.self {
        return;
      }
      var root := RootEventID(evt);
      if !Mentions(config, evt) {
        if !config.bridged {
          return;
        }
        var matched := Match(evt);
        if matched.None? {
          return;
        }
        root := matched.value;
      }
      if TrimSpace(evt.content) == SHUTDOWN {
        return;
      }
      Dispatch(root, evt, duplicate);
    }
  }

  /** Which events are handed on at all, whoever is mentioned: none of the persona's own, no command,
      nothing blank or longer than 64 KiB, and nothing from an author the gate keeps out. */
  lemma AdmittedMeans(c: Config, known: set<string>, evt: Event)
    ensures Admitted(c, evt) <==>
      && evt.pubkey != c.self
      && TrimSpace(evt.content) !in {"", "!shutdown"}
      && ByteLength(evt.content) <= 65_536
      && (|| (c.gate.respondTo == "" && c.gate.allowlist.None?)
          || evt.pubkey == c.gate.respondTo != ""
          || (c.gate.allowlist.Some? && evt.pubkey in c.gate.allowlist.value))
    ensures DispatchRoot(c, known, evt).Some? ==> Admitted(c, evt)
    ensures evt.kind == 9 && HasTagValue(evt.tags, "p", c.self) ==>
              DispatchRoot(c, known, evt) == if Admitted(c, evt) then Some(RootEventID(evt)) else None
  {
  }

  // ---------------------------------------------------------------- conversations

  /** An event arriving, and whether the bridge will call it a duplicate. */
  datatype Arrival = Arrival(evt: Event, duplicate: bool)

  /** A run of the monitor: known[n] is what the bridge knows when arrival n comes in. */
  ghost predicate IsRun(c: Config, h: seq<Arrival>, known: seq<set<string>>) {
    && |known| == |h| + 1
    && known[0] == {}
    && forall n | 0 <= n < |h| :: known[n + 1] == KnownAfter(c, known[n], h[n].evt, h[n].duplicate)
  }

  ghost predicate Grows(known: seq<set<string>>) {
    forall n | 0 <= n < |known| - 1 :: known[n] <= known[n + 1]
  }

  lemma RunGrows(c: Config, h: seq<Arrival>, known: seq<set<string>>)
    requires IsRun(c, h, known)
    ensures Grows(known)
  {
  }

  lemma {:induction false} ThreadsStayKnown(known: seq<set<string>>, m: nat, n: nat)
    requires Grows(known) && m <= n < |known|
    ensures known[m] <= known[n]
  {
    if m < n {
      ThreadsStayKnown(known, m, n - 1);
    }
  }

  lemma DispatchedThreadIsKnown(c: Config, h: seq<Arrival>, known: seq<set<string>>, n: nat, root: string)
    requires IsRun(c, h, known) && n < |h| && c.bridged
    requires root != "" && DispatchRoot(c, known[n], h[n].evt) == Some(root) && !h[n].duplicate
    ensures root in known[n + 1]
  {
    assert known[n + 1] == KnownAfter(c, known[n], h[n].evt, h[n].duplicate);
  }

  /** An earlier event of the run, not a duplicate, was dispatched in the thread. */
  ghost predicate SpokenIn(c: Config, h: seq<Arrival>, known: seq<set<string>>, n: nat, root: string)
    requires n <= |h| && |known| == |h| + 1
  {
    exists m: nat :: m < n && !h[m].duplicate && DispatchRoot(c, known[m], h[m].evt) == Some(root)
  }

  /** With a bridge the known threads are exactly those spoken in; without one there are none. */
  lemma {:induction false} KnownMeansSpokenIn(
      c: Config, h: seq<Arrival>, known: seq<set<string>>, n: nat, root: string)
    requires IsRun(c, h, known) && n <= |h|
    ensures root in known[n] <==> c.bridged && root != "" && SpokenIn(c, h, known, n, root)
  {
    if n > 0 {
      KnownMeansSpokenIn(c, h, known, n - 1, root);
      assert known[n] == KnownAfter(c, known[n - 1], h[n - 1].evt, h[n - 1].duplicate);
      if SpokenIn(c, h, known, n, root) && !SpokenIn(c, h, known, n - 1, root) {
        var m: nat :| m < n && !h[m].duplicate && DispatchRoot(c, known[m], h[m].evt) == Some(root);
        assert m == n - 1;
      }
      if SpokenIn(c, h, known, n - 1, root) {
        var m: nat :| m < n - 1 && !h[m].duplicate && DispatchRoot(c, known[m], h[m].evt) == Some(root);
      }
    }
  }

  lemma {:induction false} FirstKnownIff(known: set<string>, candidates: seq<string>, root: string)
    requires "" !in candidates && NoDuplicates(candidates)
    ensures FirstKnown(known, candidates) == Some(root) <==>
            root in known && exists k: nat ::
              k < |candidates| && candidates[k] == root && forall i | 0 <= i < k :: candidates[i] !in known
  {
    if candidates != [] {
      var rest := candidates[1..];
      FirstKnownIff(known, rest, root);
      if k: nat :| k < |rest| && rest[k] == root && forall i | 0 <= i < k :: rest[i] !in known {
        assert candidates[k + 1] == root;
        assert forall i | 0 < i < k + 1 :: candidates[i] == rest[i - 1];
      }
      if k: nat :| 0 < k < |candidates| && candidates[k] == root && forall i | 0 <= i < k :: candidates[i] !in known {
        assert rest[k - 1] == root;
        assert forall i | 0 <= i < k - 1 :: rest[i] == candidates[i + 1];
      }
    }
  }

  /** Over any run: an event that does not mention the persona is dispatched exactly when there is a
      bridge, the event is an admitted channel message, and some candidate root of it is a thread
      spoken in before; it goes to the first such candidate. In every other case it goes nowhere. */
  lemma UnmentionedDispatchIff(c: Config, h: seq<Arrival>, known: seq<set<string>>, n: nat, root: string)
    requires IsRun(c, h, known) && n < |h|
    requires h[n].evt.kind != 9 || !HasTagValue(h[n].evt.tags, "p", c.self)
    ensures var (evt, candidates) := (h[n].evt, Candidates(h[n].evt.tags));
      DispatchRoot(c, known[n], evt) == Some(root) <==>
        && c.bridged && evt.kind == 9 && Admitted(c, evt)
        && SpokenIn(c, h, known, n, root)
        && exists k: nat ::
             && k < |candidates| && candidates[k] == root
             && forall i | 0 <= i < k :: !SpokenIn(c, h, known, n, candidates[i])
  {
    var (evt, candidates) := (h[n].evt, Candidates(h[n].evt.tags));
    CandidatesExact(evt.tags, "");
    FirstKnownIff(known[n], candidates, root);
    KnownMeansSpokenIn(c, h, known, n, root);
    forall i | 0 <= i < |candidates|
      ensures c.bridged ==> (candidates[i] in known[n] <==> SpokenIn(c, h, known, n, candidates[i]))
    {
      KnownMeansSpokenIn(c, h, known, n, candidates[i]);
    }
  }

  lemma MarkedEventIsDispatched(c: Config, known: set<string>, evt: Event, root: string)
    requires root != "" && (c.bridged ==> root in known) && RootMark(evt.tags) == Some(root)
    requires evt.kind == KIND_CHANNEL_MESSAGE && Admitted(c, evt)
    ensures DispatchRoot(c, known, evt) == if c.bridged || Mentions(c, evt) then Some(root) else None
  {
    RootIsFirstCandidate(evt.tags);
  }

  /** Once a thread has been dispatched in, every admitted channel message whose root mark names it
      is dispatched in that thread, mentioned or not, whatever arrived in between; without a bridge,
      exactly the mentioned ones. */
  lemma MarkedRepliesKeepRoot(c: Config, h: seq<Arrival>, known: seq<set<string>>, first: nat, n: nat, root: string)
    requires IsRun(c, h, known)
    requires first < n < |h| && root != ""
    requires DispatchRoot(c, known[first], h[first].evt) == Some(root) && !h[first].duplicate
    requires RootMark(h[n].evt.tags) == Some(root)
    requires h[n].evt.kind == KIND_CHANNEL_MESSAGE && Admitted(c, h[n].evt)
    ensures DispatchRoot(c, known[n], h[n].evt) == if c.bridged || Mentions(c, h[n].evt) then Some(root) else None
  {
    if c.bridged {
      DispatchedThreadIsKnown(c, h, known, first, root);
      RunGrows(c, h, known);
      ThreadsStayKnown(known, first + 1, n);
    }
    MarkedEventIsDispatched(c, known[n], h[n].evt, root);
  }

  /** A conversation: its first message carries no root mark; every later one answers an earlier
      one, a bot by replying in that message's thread, a human by carrying its root mark. */
  ghost predicate IsConversation(events: seq<Event>) {
    && events != [] && RootMark(events[0].tags).None?
    && forall k | 0 < k < |events| :: exists p: nat :: p < k && Answers(events[p], events[k])
  }

  ghost predicate Answers(earlier: Event, later: Event) {
    || RootMark(later.tags) == Some(RootEventID(earlier))
    || exists channel, parent, author :: later.tags == ReplyTags(channel, RootEventID(earlier), parent, author)
  }

  /** However long the conversation, every message after the first names the first one as its root. */
  lemma {:induction false} ConversationRoot(events: seq<Event>, k: nat)
    requires IsConversation(events) && k < |events|
    ensures RootEventID(events[k]) == events[0].id
    ensures k > 0 ==> RootMark(events[k].tags) == Some(events[0].id)
  {
    if k > 0 {
      var p: nat :| p < k && Answers(events[p], events[k]);
      ConversationRoot(events, p);
      if RootMark(events[k].tags) != Some(RootEventID(events[p])) {
        var channel, parent, author :| events[k].tags == ReplyTags(channel, RootEventID(events[p]), parent, author);
        ReplyNamesRoot(channel, RootEventID(events[p]), parent, author);
      }
    }
  }

  /** In any run in which a conversation's first message was dispatched, every dispatch of a later
      message of the conversation uses the first message's own identifier as the thread, and every
      admitted later message is dispatched, mentioned or, with a bridge, not. */
  lemma ConversationKeepsItsRoot(
      c: Config, h: seq<Arrival>, known: seq<set<string>>, events: seq<Event>, k: nat, first: nat, n: nat)
    requires IsRun(c, h, known) && IsConversation(events) && 0 < k < |events| && events[0].id != ""
    requires first < n < |h| && h[first].evt == events[0] && h[n].evt == events[k]
    requires Mentions(c, events[0]) && Admitted(c, events[0]) && !h[first].duplicate
    ensures var root := DispatchRoot(c, known[n], events[k]);
      && (root.Some? ==> root == Some(events[0].id))
      && (events[k].kind == KIND_CHANNEL_MESSAGE && Admitted(c, events[k]) && (c.bridged || Mentions(c, events[k])) ==>
            root == Some(events[0].id))
  {
    ConversationRoot(events, k);
    if events[k].kind == KIND_CHANNEL_MESSAGE && Admitted(c, events[k]) {
      MarkedRepliesKeepRoot(c, h, known, first, n, events[0].id);
    }
  }
}
