/**
 * `cogs/sticky.py`: a sticky message per channel, reposted after other
 * messages through a bounded queue, at most twice per five seconds per
 * channel unless the repost is forced.
 *
 * Time is `datetime.utcnow()` in whole seconds, passed in as `now`. A
 * sticky document is keyed by its (guild, channel) pair.
 */
module Sticky {
  import opened Common

  const WindowSeconds := 5
  const MaxPerWindow := 2
  const QueueSize := 1000
  const MaxText := 2000

  /** A `stickies` document. */
  datatype StickyDoc = StickyDoc(text: string, lastRepost: int)

  // ---------------------------------------------------------------------------
  // The rate-limit deque
  // ---------------------------------------------------------------------------

  /** The front-popping loop of `is_rate_limited`: drop leading entries older than five seconds. */
  function DropOld(q: seq<int>, now: int): (r: seq<int>)
    ensures |r| <= |q| && r == q[|q| - |r|..]
    ensures r != [] ==> now - r[0] <= WindowSeconds
  {
    if q == [] || now - q[0] <= WindowSeconds then q else DropOld(q[1..], now)
  }

  predicate Nondecreasing(s: seq<int>)
  {
    forall i, j :: 0 <= i < j < |s| ==> s[i] <= s[j]
  }

  /** On a deque in time order, the loop keeps exactly the entries at most five seconds old. */
  lemma {:induction false} DropOldKeepsRecent(q: seq<int>, now: int)
    requires Nondecreasing(q)
    ensures forall t :: t in DropOld(q, now) <==> t in q && now - t <= WindowSeconds
  {
    if q != [] && now - q[0] > WindowSeconds {
      assert forall t :: t in q[1..] ==> t in q;
      assert forall i :: 0 < i < |q| ==> q[0] <= q[i];
      DropOldKeepsRecent(q[1..], now);
    } else if q != [] {
      assert forall i :: 0 <= i < |q| ==> q[0] <= q[i];
    }
  }

  /** `is_rate_limited`'s loop over the deque. */
  method PopOld(q: seq<int>, now: int) returns (r: seq<int>)
    ensures r == DropOld(q, now)
  {
    r := q;
    while r != [] && now - r[0] > WindowSeconds
      invariant DropOld(r, now) == DropOld(q, now)
      decreases |r|
    {
      r := r[1..];
    }
  }

  /** Pruning at an earlier time and again later drops the same entries as pruning once later. */
  lemma {:induction false} DropOldTwice(q: seq<int>, now: int, later: int)
    requires now <= later
    ensures DropOld(DropOld(q, now), later) == DropOld(q, later)
  {
    if q != [] && now - q[0] > WindowSeconds {
      DropOldTwice(q[1..], now, later);
    }
  }

  /** `cleanup_task`'s result on the deques: every deque pruned, the emptied ones deleted. */
  function Pruned(rl: map<int, seq<int>>, now: int): (r: map<int, seq<int>>)
    ensures forall ch :: ch in r <==> ch in rl && DropOld(rl[ch], now) != []
    ensures forall ch :: ch in r ==> r[ch] == DropOld(rl[ch], now)
  {
    map ch | ch in rl && DropOld(rl[ch], now) != [] :: DropOld(rl[ch], now)
  }

  /** The first loop of `cleanup_task`. */
  method PruneAll(rl: map<int, seq<int>>, now: int) returns (r: map<int, seq<int>>)
    ensures r == Pruned(rl, now)
  {
    r := map[];
    var todo := rl.Keys;
    while todo != {}
      invariant todo <= rl.Keys
      invariant forall ch :: ch in r <==> ch in rl && ch !in todo && DropOld(rl[ch], now) != []
      invariant forall ch :: ch in r ==> r[ch] == DropOld(rl[ch], now)
      decreases |todo|
    {
      NonEmptyHasElement(todo);
      var ch :| ch in todo;
      var q := PopOld(rl[ch], now);
      if q != [] {
        r := r[ch := q];
      }
      todo := todo - {ch};
    }
    ghost var want := Pruned(rl, now);
    assert forall ch :: ch in r <==> ch in want;
    assert r.Keys == want.Keys;
    assert forall ch :: ch in r ==> r[ch] == want[ch];
  }

  /** The deque a channel has, an absent entry read as empty. */
  function DequeOf(rl: map<int, seq<int>>, ch: int): seq<int>
  {
    if ch in rl then rl[ch] else []
  }

  /** Cleaning up never changes a later rate-limit decision: any later prune sees the same deque. */
  lemma CleanupHarmless(rl: map<int, seq<int>>, ch: int, now: int, later: int)
    requires now <= later
    ensures DropOld(DequeOf(Pruned(rl, now), ch), later) == DropOld(DequeOf(rl, ch), later)
  {
    DropOldTwice(DequeOf(rl, ch), now, later);
  }

  /** Forced repost requests for the channels, in order. */
  function Forced(chs: seq<int>): (r: seq<(int, bool)>)
    ensures |r| == |chs| && forall i :: 0 <= i < |r| ==> r[i] == (chs[i], true)
  {
    if chs == [] then [] else Forced(chs[..|chs| - 1]) + [(chs[|chs| - 1], true)]
  }

  /** The queue after offering a forced request per channel, each one dropped when the queue is full. */
  function Fed(q: seq<(int, bool)>, chs: seq<int>): seq<(int, bool)>
  {
    if chs == [] then q
    else
      var p := Fed(q, chs[..|chs| - 1]);
      if |p| < QueueSize then p + [(chs[|chs| - 1], true)] else p
  }

  /** Offering requests to a bounded queue keeps the first ones that fit. */
  lemma {:induction false} FedTruncates(q: seq<(int, bool)>, chs: seq<int>)
    requires |q| <= QueueSize
    ensures Fed(q, chs) == (q + Forced(chs))[..Min(QueueSize, |q| + |chs|)]
  {
    if chs != [] {
      var init := chs[..|chs| - 1];
      FedTruncates(q, init);
      var all := q + Forced(chs);
      assert (q + Forced(init)) == all[..|q| + |init|];
      if |q| + |init| < QueueSize {
        assert all == all[..|q| + |init|] + [(chs[|chs| - 1], true)];
      }
    }
  }

  /** The stored channels `periodic_repost` offers a forced repost for: those whose channel exists and whose sticky `get_sticky` finds. */
  function Eligible(docs: seq<(int, int)>, guildOf: map<int, int>, stickies: map<(int, int), StickyDoc>, dbOk: bool): (r: seq<int>)
    ensures forall c :: c in r ==> c in guildOf && dbOk && (guildOf[c], c) in stickies
  {
    if docs == [] then []
    else
      var c := docs[|docs| - 1].1;
      Eligible(docs[..|docs| - 1], guildOf, stickies, dbOk)
      + (if c in guildOf && dbOk && (guildOf[c], c) in stickies then [c] else [])
  }

  /** A message of a channel's history, newest first. */
  datatype HistoryMessage = HistoryMessage(byBot: bool, content: string, id: int)

  const HistoryLimit := 10

  /** `recovery_task`'s search: the first of the ten newest messages that the bot wrote with the sticky's text. */
  function FirstMatch(h: seq<HistoryMessage>, text: string): (r: Option<int>)
    ensures r.Some? <==> exists i :: 0 <= i < Min(HistoryLimit, |h|) && h[i].byBot && h[i].content == text
    ensures r.Some? ==> exists i :: 0 <= i < Min(HistoryLimit, |h|) && h[i].byBot && h[i].content == text
                                    && h[i].id == r.value
                                    && forall j :: 0 <= j < i ==> !(h[j].byBot && h[j].content == text)
  {
    FirstMatchFrom(h, text, 0)
  }

  function FirstMatchFrom(h: seq<HistoryMessage>, text: string, k: nat): (r: Option<int>)
    requires k <= Min(HistoryLimit, |h|)
    requires forall j :: 0 <= j < k ==> !(h[j].byBot && h[j].content == text)
    ensures r.Some? <==> exists i :: k <= i < Min(HistoryLimit, |h|) && h[i].byBot && h[i].content == text
    ensures r.Some? ==> exists i :: k <= i < Min(HistoryLimit, |h|) && h[i].byBot && h[i].content == text
                                    && h[i].id == r.value
                                    && forall j :: 0 <= j < i ==> !(h[j].byBot && h[j].content == text)
    decreases Min(HistoryLimit, |h|) - k
  {
    if k == Min(HistoryLimit, |h|) then None
    else if h[k].byBot && h[k].content == text then Some(h[k].id)
    else FirstMatchFrom(h, text, k + 1)
  }

  /**
   * `last_sticky_messages` after `recovery_task` has looked at the stored
   * (channel, text) documents in order; a channel missing from `history`
   * does not exist or cannot be read.
   */
  function Recovered(shown: map<int, int>, docs: seq<(int, string)>, history: map<int, seq<HistoryMessage>>): (r: map<int, int>)
    ensures forall ch :: ch in r ==> ch in shown || exists d :: d in docs && d.0 == ch
  {
    if docs == [] then shown
    else
      var prev := Recovered(shown, docs[..|docs| - 1], history);
      var (ch, text) := docs[|docs| - 1];
      if ch in history && FirstMatch(history[ch], text).Some? then prev[ch := FirstMatch(history[ch], text).value]
      else prev
  }

  // ---------------------------------------------------------------------------
  // The cog
  // ---------------------------------------------------------------------------

  /** What `channel.send` did. */
  datatype Send = Sent(msgId: int) | TooManyRequests | HttpError | Crashed

  datatype RepostResult = Limited | NoSticky | Reposted(msgId: int) | Hit429 | SendFailed

  datatype Enqueued = NotAGuild | NothingToRepost | QueueFull | Queued

  datatype QueueStep = QueueEmpty | SkippedBusy | ChannelGone | Processed(ok: bool)

  datatype StickReply = TooLong | EmptyText | NoStickyHere | DatabaseError | StickySet(queued: Enqueued) | StickyRemoved

  /** The part of the cog's state a repost reads and writes: the deques, the shown ids and the documents. */
  datatype View = View(rateLimits: map<int, seq<int>>, lastSticky: map<int, int>, stickies: map<(int, int), StickyDoc>)

  /**
   * One pass of `_repost_sticky_internal` on a view: a non-forced pass
   * prunes the deque and stops at two recent reposts; no sticky, no send;
   * otherwise the shown id is cleared, and a sent message becomes the shown
   * sticky, its time is stored and, unless forced, it joins the deque.
   */
  function Once(v: View, g: int, ch: int, force: bool, now: int, dbOk: bool, send: Send): (RepostResult, View)
  {
    var pruned := DropOld(DequeOf(v.rateLimits, ch), now);
    if !force && |pruned| >= MaxPerWindow then (Limited, v.(rateLimits := v.rateLimits[ch := pruned]))
    else
      var found := dbOk && (g, ch) in v.stickies;
      var rl := if force then v.rateLimits else v.rateLimits[ch := if found && send.Sent? then pruned + [now] else pruned];
      if !found then (NoSticky, v.(rateLimits := rl))
      else match send
        case Sent(id) => (Reposted(id), View(rl, v.lastSticky[ch := id], v.stickies[(g, ch) := v.stickies[(g, ch)].(lastRepost := now)]))
        case TooManyRequests => (Hit429, View(rl, v.lastSticky - {ch}, v.stickies))
        case _ => (SendFailed, View(rl, v.lastSticky - {ch}, v.stickies))
  }

  /** `_repost_sticky_internal`: a non-forced pass that meets a 429 is followed by exactly one forced pass, at `later`. */
  function Internal(v: View, g: int, ch: int, force: bool, now: int, later: int, dbOk: bool, first: Send, second: Send)
    : (r: (bool, nat, View))
    ensures r.1 == 1 || r.1 == 2
    ensures r.1 == 2 ==> !force && dbOk && (g, ch) in v.stickies && first == TooManyRequests
  {
    var (r1, v1) := Once(v, g, ch, force, now, dbOk, first);
    if r1 == Hit429 && !force then
      var (r2, v2) := Once(v1, g, ch, true, later, dbOk, second);
      (r2.Reposted?, 2, v2)
    else (r1.Reposted?, 1, v1)
  }

  /** The channel's deque after a non-forced pass: pruned, with the send time added when a sticky was sent. */
  function NextDeque(v: View, g: int, ch: int, now: int, dbOk: bool, send: Send): seq<int>
  {
    var pruned := DropOld(DequeOf(v.rateLimits, ch), now);
    if |pruned| < MaxPerWindow && dbOk && (g, ch) in v.stickies && send.Sent? then pruned + [now] else pruned
  }

  /** One pass: forced, the deques stay; otherwise the channel's deque is pruned and a sent message joins it. */
  lemma OnceDeque(v: View, g: int, ch: int, force: bool, now: int, dbOk: bool, send: Send)
    ensures force ==> Once(v, g, ch, force, now, dbOk, send).1.rateLimits == v.rateLimits
    ensures !force ==> Once(v, g, ch, force, now, dbOk, send).1.rateLimits == v.rateLimits[ch := NextDeque(v, g, ch, now, dbOk, send)]
    ensures Once(v, g, ch, force, now, dbOk, send).0 == Hit429 ==> send == TooManyRequests
  {
    var pruned := DropOld(DequeOf(v.rateLimits, ch), now);
    if !force {
      var entry := NextDeque(v, g, ch, now, dbOk, send);
      if |pruned| >= MaxPerWindow {
        assert entry == pruned;
      } else {
        assert entry == if dbOk && (g, ch) in v.stickies && send.Sent? then pruned + [now] else pruned;
      }
    }
  }

  /**
   * Only a non-forced repost that succeeds at once joins the deque: the
   * forced retry after a 429 never counts against the limit, and a forced
   * repost leaves the deques as they were.
   */
  lemma InternalDeque(v: View, g: int, ch: int, force: bool, now: int, later: int, dbOk: bool, first: Send, second: Send)
    ensures Internal(v, g, ch, force, now, later, dbOk, first, second).2.rateLimits
            == if force then v.rateLimits else v.rateLimits[ch := NextDeque(v, g, ch, now, dbOk, first)]
  {
    OnceDeque(v, g, ch, force, now, dbOk, first);
    var (r1, v1) := Once(v, g, ch, force, now, dbOk, first);
    if r1 == Hit429 && !force {
      OnceDeque(v1, g, ch, true, later, dbOk, second);
    }
  }

  /** One pass that sends shows the sent message and stamps the document; any other pass keeps the documents and shows nothing new. */
  lemma OnceShown(v: View, g: int, ch: int, force: bool, now: int, dbOk: bool, send: Send)
    ensures var (r, w) := Once(v, g, ch, force, now, dbOk, send);
            && (r.Reposted? ==> send.Sent? && (g, ch) in v.stickies && w.lastSticky == v.lastSticky[ch := send.msgId]
                                && w.stickies == v.stickies[(g, ch) := v.stickies[(g, ch)].(lastRepost := now)])
            && (!r.Reposted? ==> w.stickies == v.stickies && w.lastSticky.Keys <= v.lastSticky.Keys)
  {
  }

  /** The field-by-field account of one pass determines the pass: any result and view that meet it are what `Once` gives. */
  lemma OnceByFields(v: View, w: View, r: RepostResult, g: int, ch: int, force: bool, now: int, dbOk: bool, send: Send)
    requires var pruned := DropOld(DequeOf(v.rateLimits, ch), now);
             && (r == Limited <==> !force && |pruned| >= MaxPerWindow)
             && (force ==> w.rateLimits == v.rateLimits)
             && (!force && !r.Reposted? ==> w.rateLimits == v.rateLimits[ch := pruned])
             && (!force && r.Reposted? ==> w.rateLimits == v.rateLimits[ch := pruned + [now]])
    requires r == NoSticky <==> r != Limited && !(dbOk && (g, ch) in v.stickies)
    requires r == Limited || r == NoSticky ==> w.lastSticky == v.lastSticky && w.stickies == v.stickies
    requires r != Limited && r != NoSticky ==>
               && (r.Reposted? <==> send.Sent?)
               && (r == Hit429 <==> send == TooManyRequests)
               && w.lastSticky == (if send.Sent? then v.lastSticky[ch := send.msgId] else v.lastSticky - {ch})
               && w.stickies == (if send.Sent? then v.stickies[(g, ch) := v.stickies[(g, ch)].(lastRepost := now)]
                                 else v.stickies)
    requires r.Reposted? ==> r.msgId == send.msgId
    ensures (r, w) == Once(v, g, ch, force, now, dbOk, send)
  {
  }

  /** A repost that succeeds shows the sticky it sent and stamps its document; one that fails shows nothing new. */
  lemma InternalShown(v: View, g: int, ch: int, force: bool, now: int, later: int, dbOk: bool, first: Send, second: Send)
    ensures var (ok, passes, w) := Internal(v, g, ch, force, now, later, dbOk, first, second);
            && (ok ==> (g, ch) in v.stickies && ch in w.lastSticky && w.stickies.Keys == v.stickies.Keys
                       && w.stickies[(g, ch)].text == v.stickies[(g, ch)].text)
            && (ok && passes == 1 ==> w.lastSticky[ch] == first.msgId && w.stickies[(g, ch)].lastRepost == now)
            && (ok && passes == 2 ==> w.lastSticky[ch] == second.msgId && w.stickies[(g, ch)].lastRepost == later)
            && (!ok ==> w.stickies == v.stickies && w.lastSticky.Keys <= v.lastSticky.Keys)
  {
    OnceShown(v, g, ch, force, now, dbOk, first);
    var (r1, v1) := Once(v, g, ch, force, now, dbOk, first);
    if r1 == Hit429 && !force {
      OnceShown(v1, g, ch, true, later, dbOk, second);
    }
  }

  /** The text check of `stick` and `stickedit`: at most 2000 characters and not blank. */
  predicate AcceptableText(text: string)
  {
    |text| <= MaxText && Strip(text) != ""
  }

  class StickyCog {
    /** `rate_limits`: a deque of repost times per channel (a `defaultdict`, so reading creates the entry). */
    var rateLimits: map<int, seq<int>>
    /** `last_sticky_messages`: the id of the sticky currently shown in a channel. */
    var lastSticky: map<int, int>
    /** `repost_queue`: (channel, force) requests. */
    var queue: seq<(int, bool)>
    /** `processing_channels`. */
    var processing: set<int>
    /** The `stickies` collection. */
    var stickies: map<(int, int), StickyDoc>

    /** The queue never holds more than its 1000 slots. */
    predicate Valid()
      reads this
    {
      |queue| <= QueueSize
    }

    constructor()
      ensures Valid() && rateLimits == map[] && lastSticky == map[] && queue == [] && processing == {} && stickies == map[]
    {
      rateLimits := map[];
      lastSticky := map[];
      queue := [];
      processing := {};
      stickies := map[];
    }

    function Deque(ch: int): seq<int>
      reads this
    {
      if ch in rateLimits then rateLimits[ch] else []
    }

    function Snapshot(): View
      reads this
    {
      View(rateLimits, lastSticky, stickies)
    }

    /** `is_rate_limited`: prune the deque, then limited iff two or more entries remain. */
    method IsRateLimited(ch: int, now: int) returns (limited: bool)
      modifies this
      ensures rateLimits == old(rateLimits)[ch := DropOld(old(Deque(ch)), now)]
      ensures limited <==> |DropOld(old(Deque(ch)), now)| >= MaxPerWindow
      ensures lastSticky == old(lastSticky) && queue == old(queue) && processing == old(processing)
      ensures stickies == old(stickies)
    {
      var q := PopOld(Deque(ch), now);
      rateLimits := rateLimits[ch := q];
      limited := |q| >= MaxPerWindow;
    }

    /**
     * The part of `_repost_sticky_internal` after the limit check: no
     * sticky, no repost; the old sticky's id is cleared whether or not its
     * deletion works; a sent message becomes the new sticky, its time is
     * stored, and a non-forced repost is recorded in the deque.
     */
    method SendSticky(g: int, ch: int, force: bool, now: int, dbOk: bool, send: Send) returns (r: RepostResult)
      requires Valid()
      modifies this
      ensures Valid() && queue == old(queue) && processing == old(processing)
      ensures r != Limited
      ensures r == NoSticky <==> !(dbOk && (g, ch) in old(stickies))
      ensures r == NoSticky ==> lastSticky == old(lastSticky) && stickies == old(stickies)
      ensures rateLimits == if !force && r.Reposted? then old(rateLimits)[ch := old(Deque(ch)) + [now]] else old(rateLimits)
      ensures r != NoSticky ==>
                && (r.Reposted? <==> send.Sent?)
                && (r == Hit429 <==> send == TooManyRequests)
                && lastSticky == (if send.Sent? then old(lastSticky)[ch := send.msgId] else old(lastSticky) - {ch})
                && stickies == (if send.Sent? then old(stickies)[(g, ch) := old(stickies)[(g, ch)].(lastRepost := now)]
                                else old(stickies))
      ensures r.Reposted? ==> r.msgId == send.msgId
    {
      if !dbOk || (g, ch) !in stickies {
        return NoSticky;
      }
      if ch in lastSticky {
        lastSticky := lastSticky - {ch};
      }
      match send {
        case Sent(id) =>
          lastSticky := lastSticky[ch := id];
          stickies := stickies[(g, ch) := stickies[(g, ch)].(lastRepost := now)];
          if !force {
            rateLimits := rateLimits[ch := Deque(ch) + [now]];
          }
          r := Reposted(id);
        case TooManyRequests =>
          r := Hit429;
        case HttpError =>
          r := SendFailed;
        case Crashed =>
          r := SendFailed;
      }
    }

    /** One pass of `_repost_sticky_internal`: a non-forced repost first prunes the deque and checks the limit. */
    method RepostOnce(g: int, ch: int, force: bool, now: int, dbOk: bool, send: Send) returns (r: RepostResult)
      requires Valid()
      modifies this
      ensures Valid() && queue == old(queue) && processing == old(processing)
      ensures var pruned := DropOld(old(Deque(ch)), now);
              && (r == Limited <==> !force && |pruned| >= MaxPerWindow)
              && (force ==> rateLimits == old(rateLimits))
              && (!force && !r.Reposted? ==> rateLimits == old(rateLimits)[ch := pruned])
              && (!force && r.Reposted? ==> rateLimits == old(rateLimits)[ch := pruned + [now]])
      ensures r == NoSticky <==> r != Limited && !(dbOk && (g, ch) in old(stickies))
      ensures r == Limited || r == NoSticky ==> lastSticky == old(lastSticky) && stickies == old(stickies)
      ensures r != Limited && r != NoSticky ==>
                && (r.Reposted? <==> send.Sent?)
                && (r == Hit429 <==> send == TooManyRequests)
                && lastSticky == (if send.Sent? then old(lastSticky)[ch := send.msgId] else old(lastSticky) - {ch})
                && stickies == (if send.Sent? then old(stickies)[(g, ch) := old(stickies)[(g, ch)].(lastRepost := now)]
                                else old(stickies))
      ensures r.Reposted? ==> r.msgId == send.msgId
      ensures (r, Snapshot()) == Once(old(Snapshot()), g, ch, force, now, dbOk, send)
    {
      ghost var pruned := DropOld(Deque(ch), now);
      var limited := false;
      if !force {
        limited := IsRateLimited(ch, now);
        assert Deque(ch) == pruned;
      }
      if limited {
        r := Limited;
      } else {
        r := SendSticky(g, ch, force, now, dbOk, send);
      }
      OnceByFields(old(Snapshot()), Snapshot(), r, g, ch, force, now, dbOk, send);
    }

    /**
     * `_repost_sticky_internal`: a non-forced repost that meets a 429 sleeps
     * and retries exactly once, forced; a forced one gives up. Forced
     * reposts leave the deques untouched.
     */
    method RepostInternal(g: int, ch: int, force: bool, now: int, later: int, dbOk: bool, first: Send, second: Send)
      returns (ok: bool, passes: nat)
      requires Valid()
      modifies this
      ensures Valid() && queue == old(queue) && processing == old(processing)
      ensures 1 <= passes <= 2
      ensures force ==> rateLimits == old(rateLimits) && passes == 1
      ensures var past := (force || |DropOld(old(Deque(ch)), now)| < MaxPerWindow) && dbOk && (g, ch) in old(stickies);
              && (passes == 2 <==> !force && past && first == TooManyRequests)
              && (passes == 1 ==> (ok <==> past && first.Sent?))
              && (passes == 2 ==> (ok <==> second.Sent?))
      ensures ok ==> ch in lastSticky
      ensures (ok, passes, Snapshot()) == Internal(old(Snapshot()), g, ch, force, now, later, dbOk, first, second)
    {
      var r := RepostOnce(g, ch, force, now, dbOk, first);
      if r == Hit429 && !force {
        var r2 := RepostOnce(g, ch, true, later, dbOk, second);
        return r2.Reposted?, 2;
      }
      return r.Reposted?, 1;
    }

    /** `repost_sticky`: queue the request unless the channel has no sticky or the queue is full. */
    method RepostSticky(g: int, ch: int, inGuild: bool, force: bool, dbOk: bool) returns (e: Enqueued)
      requires Valid()
      modifies this
      ensures Valid() && rateLimits == old(rateLimits) && lastSticky == old(lastSticky)
      ensures processing == old(processing) && stickies == old(stickies)
      ensures e == Queued <==> inGuild && dbOk && (g, ch) in stickies && |old(queue)| < QueueSize
      ensures e == QueueFull <==> inGuild && dbOk && (g, ch) in stickies && |old(queue)| >= QueueSize
      ensures e == NotAGuild <==> !inGuild
      ensures queue == if e == Queued then old(queue) + [(ch, force)] else old(queue)
    {
      if !inGuild {
        return NotAGuild;
      }
      if !dbOk || (g, ch) !in stickies {
        return NothingToRepost;
      }
      if |queue| >= QueueSize {
        return QueueFull;
      }
      queue := queue + [(ch, force)];
      e := Queued;
    }

    /** `on_message`: bots and direct messages are ignored; anything else queues a non-forced repost. */
    method OnMessage(g: int, ch: int, authorBot: bool, inGuild: bool, dbOk: bool) returns (e: Option<Enqueued>)
      requires Valid()
      modifies this
      ensures Valid() && rateLimits == old(rateLimits) && lastSticky == old(lastSticky) && stickies == old(stickies)
      ensures authorBot || !inGuild ==> e.None? && queue == old(queue)
      ensures processing == old(processing)
      ensures queue == if e == Some(Queued) then old(queue) + [(ch, false)] else old(queue)
      ensures !authorBot && inGuild ==> e.Some?
      ensures e == Some(Queued) <==> !authorBot && inGuild && dbOk && (g, ch) in stickies && |old(queue)| < QueueSize
      ensures e == Some(QueueFull) <==> !authorBot && inGuild && dbOk && (g, ch) in stickies && |old(queue)| >= QueueSize
      ensures e == Some(NothingToRepost) <==> !authorBot && inGuild && !(dbOk && (g, ch) in stickies)
    {
      if authorBot || !inGuild {
        return None;
      }
      var r := RepostSticky(g, ch, inGuild, false, dbOk);
      e := Some(r);
    }

    /**
     * One turn of `_process_repost_queue`: the front request is taken; it is
     * dropped when its channel is already being processed or is gone, and
     * otherwise reposted with the channel marked as processing meanwhile.
     */
    method ProcessNext(guildOf: map<int, int>, now: int, later: int, dbOk: bool, first: Send, second: Send)
      returns (step: QueueStep)
      requires Valid()
      modifies this
      ensures Valid() && processing == old(processing)
      ensures old(queue) == [] ==> step == QueueEmpty && queue == [] && rateLimits == old(rateLimits)
      ensures old(queue) != [] ==> queue == old(queue)[1..]
      ensures old(queue) != [] && old(queue)[0].0 in old(processing) ==> step == SkippedBusy
      ensures step == SkippedBusy || step == ChannelGone ==>
                rateLimits == old(rateLimits) && lastSticky == old(lastSticky) && stickies == old(stickies)
      ensures step.Processed? ==> old(queue)[0].0 in guildOf && old(queue)[0].0 !in old(processing)
      ensures old(queue) != [] && old(queue)[0].0 !in old(processing) && old(queue)[0].0 in guildOf ==>
                var (ch, force) := old(queue)[0];
                var (ok, _, w) := Internal(old(Snapshot()), guildOf[ch], ch, force, now, later, dbOk, first, second);
                step == Processed(ok) && Snapshot() == w
    {
      if queue == [] {
        return QueueEmpty;
      }
      var (ch, force) := queue[0];
      queue := queue[1..];
      if ch in processing {
        return SkippedBusy;
      }
      if ch !in guildOf {
        return ChannelGone;
      }
      processing := processing + {ch};
      var ok, _ := RepostInternal(guildOf[ch], ch, force, now, later, dbOk, first, second);
      processing := processing - {ch};
      step := Processed(ok);
    }

    /** `set_sticky`: an upsert of the text with the current time. */
    method SetSticky(g: int, ch: int, text: string, now: int, dbOk: bool) returns (ok: bool)
      modifies this
      ensures ok == dbOk && rateLimits == old(rateLimits) && lastSticky == old(lastSticky)
      ensures queue == old(queue) && processing == old(processing)
      ensures stickies == if dbOk then old(stickies)[(g, ch) := StickyDoc(text, now)] else old(stickies)
    {
      if dbOk {
        stickies := stickies[(g, ch) := StickyDoc(text, now)];
      }
      ok := dbOk;
    }

    /** `.stick`: the text is checked, stored, and a forced repost is queued. */
    method Stick(g: int, ch: int, text: string, now: int, dbOk: bool) returns (reply: StickReply)
      requires Valid()
      modifies this
      ensures Valid() && rateLimits == old(rateLimits) && lastSticky == old(lastSticky)
      ensures |text| > MaxText ==> reply == TooLong
      ensures |text| <= MaxText && Strip(text) == "" ==> reply == EmptyText
      ensures reply.StickySet? <==> AcceptableText(text) && dbOk
      ensures reply.StickySet? ==> stickies == old(stickies)[(g, ch) := StickyDoc(text, now)]
                                   && (reply.queued == Queued <==> |old(queue)| < QueueSize)
      ensures reply.StickySet? ==> queue == if |old(queue)| < QueueSize then old(queue) + [(ch, true)] else old(queue)
      ensures !reply.StickySet? ==> stickies == old(stickies) && queue == old(queue)
      ensures processing == old(processing)
    {
      if |text| > MaxText {
        return TooLong;
      }
      if Strip(text) == "" {
        return EmptyText;
      }
      var ok := SetSticky(g, ch, text, now, dbOk);
      if !ok {
        return DatabaseError;
      }
      var e := RepostSticky(g, ch, true, true, dbOk);
      reply := StickySet(e);
    }

    /** `.stickedit`: as `.stick`, but only where a sticky already exists. */
    method StickEdit(g: int, ch: int, text: string, now: int, readOk: bool, writeOk: bool) returns (reply: StickReply)
      requires Valid()
      modifies this
      ensures Valid() && rateLimits == old(rateLimits) && lastSticky == old(lastSticky)
      ensures reply.StickySet? <==> AcceptableText(text) && readOk && (g, ch) in old(stickies) && writeOk
      ensures reply == NoStickyHere <==> AcceptableText(text) && !(readOk && (g, ch) in old(stickies))
      ensures reply.StickySet? ==> stickies == old(stickies)[(g, ch) := StickyDoc(text, now)]
                                   && (reply.queued == Queued <==> |old(queue)| < QueueSize)
      ensures reply.StickySet? ==> queue == if |old(queue)| < QueueSize then old(queue) + [(ch, true)] else old(queue)
      ensures !reply.StickySet? ==> stickies == old(stickies) && queue == old(queue)
      ensures processing == old(processing)
    {
      if |text| > MaxText {
        return TooLong;
      }
      if Strip(text) == "" {
        return EmptyText;
      }
      if !readOk || (g, ch) !in stickies {
        return NoStickyHere;
      }
      var ok := SetSticky(g, ch, text, now, writeOk);
      if !ok {
        return DatabaseError;
      }
      var e := RepostSticky(g, ch, true, true, writeOk);
      reply := StickySet(e);
    }

    /** `.stickstop`: the shown sticky's id is cleared first, whatever happens to the document. */
    method StickStop(g: int, ch: int, readOk: bool, deleteOk: bool) returns (reply: StickReply)
      modifies this
      ensures rateLimits == old(rateLimits) && queue == old(queue) && processing == old(processing)
      ensures !(readOk && (g, ch) in old(stickies)) ==> reply == NoStickyHere && lastSticky == old(lastSticky)
                                                        && stickies == old(stickies)
      ensures readOk && (g, ch) in old(stickies) ==>
                && lastSticky == old(lastSticky) - {ch}
                && reply == (if deleteOk then StickyRemoved else DatabaseError)
                && stickies == (if deleteOk then old(stickies) - {(g, ch)} else old(stickies))
    {
      if !readOk || (g, ch) !in stickies {
        return NoStickyHere;
      }
      if ch in lastSticky {
        lastSticky := lastSticky - {ch};
      }
      if deleteOk {
        stickies := stickies - {(g, ch)};
        reply := StickyRemoved;
      } else {
        reply := DatabaseError;
      }
    }

    /**
     * `cleanup_task`: the deques are pruned and the empty ones deleted; a
     * shown sticky's id is forgotten when its channel no longer exists.
     */
    method Cleanup(now: int, channels: set<int>)
      modifies this
      ensures rateLimits == Pruned(old(rateLimits), now)
      ensures lastSticky == map ch | ch in old(lastSticky) && ch in channels :: old(lastSticky)[ch]
      ensures queue == old(queue) && processing == old(processing) && stickies == old(stickies)
    {
      rateLimits := PruneAll(rateLimits, now);
      lastSticky := map ch | ch in lastSticky && ch in channels :: lastSticky[ch];
    }

    /**
     * `periodic_repost`: every stored sticky whose channel exists is
     * offered a forced repost, in the order the collection yields them.
     */
    method PeriodicRepost(docs: seq<(int, int)>, guildOf: map<int, int>, dbOk: bool)
      requires Valid()
      modifies this
      ensures Valid() && rateLimits == old(rateLimits) && lastSticky == old(lastSticky)
      ensures processing == old(processing) && stickies == old(stickies)
      ensures queue == Fed(old(queue), Eligible(docs, guildOf, old(stickies), dbOk))
    {
      for i := 0 to |docs|
        invariant Valid() && rateLimits == old(rateLimits) && lastSticky == old(lastSticky)
        invariant processing == old(processing) && stickies == old(stickies)
        invariant queue == Fed(old(queue), Eligible(docs[..i], guildOf, stickies, dbOk))
      {
        var c := docs[i].1;
        ghost var before := Eligible(docs[..i], guildOf, stickies, dbOk);
        assert docs[..i + 1][..i] == docs[..i];
        if c in guildOf && dbOk && (guildOf[c], c) in stickies {
          assert Eligible(docs[..i + 1], guildOf, stickies, dbOk) == before + [c];
          assert (before + [c])[..|before|] == before;
        } else {
          assert Eligible(docs[..i + 1], guildOf, stickies, dbOk) == before + [];
          assert before + [] == before;
        }
        if c in guildOf {
          var _ := RepostSticky(guildOf[c], c, true, true, dbOk);
        }
      }
      assert docs[..|docs|] == docs;
    }

    /**
     * `.stickreset`: every sticky of the guild is deleted, and the shown
     * ids of the guild's existing channels are forgotten; a database
     * error changes nothing.
     */
    method StickReset(g: int, guildOf: map<int, int>, deleteOk: bool) returns (removed: Option<nat>)
      modifies this
      ensures rateLimits == old(rateLimits) && queue == old(queue) && processing == old(processing)
      ensures !deleteOk ==> removed.None? && lastSticky == old(lastSticky) && stickies == old(stickies)
      ensures deleteOk ==>
                && removed == Some(|set k | k in old(stickies) && k.0 == g|)
                && (forall k :: k in stickies <==> k in old(stickies) && k.0 != g)
                && (forall k :: k in stickies ==> stickies[k] == old(stickies)[k])
                && (forall ch :: ch in lastSticky <==> ch in old(lastSticky) && !(ch in guildOf && guildOf[ch] == g))
                && (forall ch :: ch in lastSticky ==> lastSticky[ch] == old(lastSticky)[ch])
    {
      if !deleteOk {
        return None;
      }
      removed := Some(|set k | k in stickies && k.0 == g|);
      stickies := map k | k in stickies && k.0 != g :: stickies[k];
      lastSticky := map ch | ch in lastSticky && !(ch in guildOf && guildOf[ch] == g) :: lastSticky[ch];
    }

    /** `recovery_task`: ids of shown stickies are found again in the channels' recent history. */
    method Recover(docs: seq<(int, string)>, history: map<int, seq<HistoryMessage>>)
      modifies this
      ensures lastSticky == Recovered(old(lastSticky), docs, history)
      ensures rateLimits == old(rateLimits) && queue == old(queue) && processing == old(processing)
      ensures stickies == old(stickies)
    {
      for i := 0 to |docs|
        invariant lastSticky == Recovered(old(lastSticky), docs[..i], history)
        invariant rateLimits == old(rateLimits) && queue == old(queue) && processing == old(processing)
        invariant stickies == old(stickies)
      {
        assert docs[..i + 1][..i] == docs[..i];
        var (ch, text) := docs[i];
        if ch in history {
          var m := FirstMatch(history[ch], text);
          if m.Some? {
            lastSticky := lastSticky[ch := m.value];
          }
        }
      }
      assert docs[..|docs|] == docs;
    }
  }
}
