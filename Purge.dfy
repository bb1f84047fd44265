/**
 * `cogs/purge.py`: the `.purge` command. Its argument is a count or a
 * filter; recent channel history is fetched with a rate-limit backoff,
 * the messages younger than 14 days that pass the filter are selected,
 * and they are deleted one by one or in bulk with retries.
 *
 * Timestamps are whole seconds. What each history read, deletion and
 * member lookup does is a parameter; sleeps come out as the list of
 * delays the command would wait.
 */
module Purge {
  import opened Common

  const MaxRetryAttempts := 3
  const MessageAgeLimit := 14
  const SecondsPerDay := 86400
  const MaxAmount := 100
  const FilterAmount := 50

  /** `current_delay *= BACKOFF_MULTIPLIER`. */
  function Grow(delay: real): real
  {
    delay * 1.5
  }

  /** `current_delay` after k rate limits: 1.0 multiplied by 1.5 each time. */
  function Backoff(k: nat): real
  {
    if k == 0 then 1.0 else Grow(Backoff(k - 1))
  }

  // ---------------------------------------------------------------------------
  // The argument of `purge_prefix`
  // ---------------------------------------------------------------------------

  datatype Filter = All | Bots | Humans | User(id: int)

  datatype Parsed = Missing | Invalid | BadMention | Purge(amount: nat, filter: Filter)

  /** Python's `s.strip(chars)`. */
  function StripChars(s: string, chars: set<char>): (r: string)
    ensures |r| <= |s|
    ensures r == [] || (r[0] !in chars && r[|r| - 1] !in chars)
    decreases |s|
  {
    if |s| > 0 && s[0] in chars then StripChars(s[1..], chars)
    else if |s| > 0 && s[|s| - 1] in chars then StripChars(s[..|s| - 1], chars)
    else s
  }

  /**
   * The argument: a digit string is a count capped at 100; "bots" and
   * "humans" in any case, or a mention of a member of the server, select
   * 50 messages through that filter; anything else is refused. An empty
   * or missing argument asks for one.
   */
  function ParseArg(arg: string, isMember: int -> bool): (r: Parsed)
    ensures arg == [] <==> r == Missing
    ensures r.Purge? ==> r.amount <= MaxAmount
    ensures r.Purge? && r.filter.All? <==> IsDigitString(arg)
    ensures r.Purge? && !r.filter.All? ==> r.amount == FilterAmount
    ensures r.Purge? && r.filter.User? ==> isMember(r.filter.id) && StartsWith(arg, "<@") && EndsWith(arg, ">")
  {
    if arg == [] then Missing
    else if IsDigitString(arg) then Purge(Min(DigitsValue(arg), MaxAmount), All)
    else if Lower(arg) == "bots" then Purge(FilterAmount, Bots)
    else if Lower(arg) == "humans" then Purge(FilterAmount, Humans)
    else if StartsWith(arg, "<@") && EndsWith(arg, ">") then
      var id := ParseInt(StripChars(arg, {'<', '@', '!', '>'}));
      if id.Some? && isMember(id.value) then Purge(FilterAmount, User(id.value)) else BadMention
    else Invalid
  }

  /** A number purges that many messages, at most 100, without filter. */
  lemma ParseCount(n: nat, isMember: int -> bool)
    ensures ParseArg(NatToString(n), isMember) == Purge(Min(n, MaxAmount), All)
  {
    NatToStringRoundTrip(n);
  }

  /** A mention `<@id>` or `<@!id>` of a member purges 50 of that member's messages. */
  lemma ParseMention(id: nat, nick: bool, isMember: int -> bool)
    requires isMember(id)
    ensures ParseArg((if nick then "<@!" else "<@") + NatToString(id) + ">", isMember) == Purge(FilterAmount, User(id))
  {
    var d := NatToString(id);
    var head := if nick then "<@!" else "<@";
    MentionShape(head, d);
    StripMention(head, d);
    ParseIntOfNat(id);
  }

  lemma MentionShape(head: string, d: string)
    requires head == "<@!" || head == "<@"
    ensures var arg := head + d + ">";
            !IsDigitString(arg) && Lower(arg) != "bots" && Lower(arg) != "humans" && StartsWith(arg, "<@") && EndsWith(arg, ">")
  {
    var arg := head + d + ">";
    assert arg[0] == '<';
    assert Lower(arg)[0] == '<';
    assert arg[..2] == "<@";
    assert arg[|arg| - 1..] == ">";
  }

  lemma StripMention(head: string, d: string)
    requires head == "<@!" || head == "<@"
    requires IsDigitString(d)
    ensures StripChars(head + d + ">", {'<', '@', '!', '>'}) == d
  {
    var cs := {'<', '@', '!', '>'};
    var arg := head + d + ">";
    assert arg == head + (d + ">");
    assert arg[..|head|] == head;
    StripHead(arg, head, cs);
    assert arg[|head|..] == d + ">";
    assert (d + ">")[..|d|] == d;
    assert d[0] !in cs && d[|d| - 1] !in cs;
  }

  lemma {:induction false} StripHead(s: string, head: string, cs: set<char>)
    requires |head| <= |s| && s[..|head|] == head && forall i :: 0 <= i < |head| ==> head[i] in cs
    ensures StripChars(s, cs) == StripChars(s[|head|..], cs)
    decreases |head|
  {
    if |head| > 0 {
      assert s[0] == head[0];
      assert s[1..][..|head| - 1] == head[1..];
      StripHead(s[1..], head[1..], cs);
      assert s[1..][|head| - 1..] == s[|head|..];
    }
  }

  // ---------------------------------------------------------------------------
  // `process_messages`
  // ---------------------------------------------------------------------------

  datatype Msg = Msg(id: int, author: int, bot: bool, createdAt: int)

  /** `(now - created_at).days`: whole days, rounded down. */
  function AgeDays(now: int, m: Msg): int
  {
    (now - m.createdAt) / SecondsPerDay
  }

  predicate Passes(f: Filter, m: Msg)
  {
    match f
    case All => true
    case Bots => m.bot
    case Humans => !m.bot
    case User(id) => m.author == id
  }

  /** The messages a purge keeps: at most 14 days old and passing the filter, in history order. */
  function Selected(msgs: seq<Msg>, now: int, f: Filter): (r: seq<Msg>)
    ensures forall m :: m in r <==> m in msgs && AgeDays(now, m) <= MessageAgeLimit && Passes(f, m)
  {
    if msgs == [] then []
    else
      var m := msgs[|msgs| - 1];
      var init := msgs[..|msgs| - 1];
      assert forall x :: x in msgs <==> x in init || x == m;
      Selected(init, now, f) + (if AgeDays(now, m) <= MessageAgeLimit && Passes(f, m) then [m] else [])
  }

  /** `too_old_count`: the messages older than 14 days, whatever the filter. */
  function TooOld(msgs: seq<Msg>, now: int): nat
  {
    if msgs == [] then 0
    else TooOld(msgs[..|msgs| - 1], now) + (if AgeDays(now, msgs[|msgs| - 1]) <= MessageAgeLimit then 0 else 1)
  }

  /** The recent messages the filter rejects. */
  function Dropped(msgs: seq<Msg>, now: int, f: Filter): nat
  {
    if msgs == [] then 0
    else
      var m := msgs[|msgs| - 1];
      Dropped(msgs[..|msgs| - 1], now, f) + (if AgeDays(now, m) <= MessageAgeLimit && !Passes(f, m) then 1 else 0)
  }

  /** Every message is kept, counted as too old, or dropped silently; without a filter none is dropped. */
  lemma {:induction false} Partition(msgs: seq<Msg>, now: int, f: Filter)
    ensures |Selected(msgs, now, f)| + TooOld(msgs, now) + Dropped(msgs, now, f) == |msgs|
    ensures f.All? ==> Dropped(msgs, now, f) == 0
  {
    if msgs != [] {
      Partition(msgs[..|msgs| - 1], now, f);
    }
  }

  /** One more message is kept, counted as too old, or neither. */
  lemma ProcessStep(msgs: seq<Msg>, i: nat, now: int, f: Filter)
    requires i < |msgs|
    ensures var m := msgs[i];
            && Selected(msgs[..i + 1], now, f) == Selected(msgs[..i], now, f) + (if AgeDays(now, m) <= MessageAgeLimit && Passes(f, m) then [m] else [])
            && TooOld(msgs[..i + 1], now) == TooOld(msgs[..i], now) + (if AgeDays(now, m) <= MessageAgeLimit then 0 else 1)
  {
    var p := msgs[..i + 1];
    assert p[..i] == msgs[..i] && p[i] == msgs[i];
  }

  /** The loop of `process_messages` over the fetched history. */
  method ProcessMessages(msgs: seq<Msg>, now: int, f: Filter) returns (kept: seq<Msg>, tooOld: nat)
    ensures kept == Selected(msgs, now, f) && tooOld == TooOld(msgs, now)
  {
    kept := [];
    tooOld := 0;
    var i := 0;
    while i < |msgs|
      invariant 0 <= i <= |msgs|
      invariant kept == Selected(msgs[..i], now, f) && tooOld == TooOld(msgs[..i], now)
    {
      var m := msgs[i];
      ProcessStep(msgs, i, now, f);
      if AgeDays(now, m) <= MessageAgeLimit {
        if Passes(f, m) {
          kept := kept + [m];
        }
      } else {
        tooOld := tooOld + 1;
      }
      i := i + 1;
    }
    assert msgs[..i] == msgs;
  }

  // ---------------------------------------------------------------------------
  // `fetch_messages_with_backoff`
  // ---------------------------------------------------------------------------

  /** One pass over `channel.history`: it yields messages and either ends or raises with an HTTP status. */
  datatype HistoryRun = Complete(msgs: seq<Msg>) | Interrupted(msgs: seq<Msg>, status: int, retryAfter: Option<real>)

  datatype FetchResult = Fetched(msgs: seq<Msg>, sleeps: seq<real>) | FetchError(status: int)

  /** The wait after a rate-limited pass: the Retry-After header, or the current delay. */
  function Wait(run: HistoryRun, delay: real): real
  {
    if run.Interrupted? && run.retryAfter.Some? then run.retryAfter.value else delay
  }

  /**
   * The backoff loop from pass `attempt` on, with `got` fetched and `sleeps`
   * waited so far. A 429 is always retried or ends the loop with what was
   * gathered, so the fetch fails only on another status.
   */
  function FetchFrom(history: nat -> HistoryRun, limit: int, attempt: nat, got: seq<Msg>, delay: real, sleeps: seq<real>): (r: FetchResult)
    ensures r.FetchError? ==> r.status != 429
    decreases MaxRetryAttempts - attempt
  {
    if |got| >= limit || attempt >= MaxRetryAttempts then Fetched(got, sleeps)
    else
      var run := history(attempt);
      var more := got + Take(run.msgs, limit - |got|);
      if run.Complete? then Fetched(more, sleeps)
      else if run.status == 429 then FetchFrom(history, limit, attempt + 1, more, Grow(delay), sleeps + [Wait(run, delay)])
      else FetchError(run.status)
  }

  /**
   * The fetch waits at most three times, each time for the header or the
   * doubled-by-1.5 delay, keeps what earlier passes yielded, never returns
   * more than `limit`.
   */
  lemma {:induction false} FetchFacts(history: nat -> HistoryRun, limit: int, attempt: nat, got: seq<Msg>, sleeps: seq<real>)
    requires attempt <= MaxRetryAttempts && |sleeps| == attempt && |got| <= Max(limit, 0)
    ensures var r := FetchFrom(history, limit, attempt, got, Backoff(attempt), sleeps);
            && (r.Fetched? ==> |got| <= |r.msgs| <= Max(limit, 0) && r.msgs[..|got|] == got
                               && attempt <= |r.sleeps| <= MaxRetryAttempts && r.sleeps[..attempt] == sleeps
                               && forall k :: attempt <= k < |r.sleeps| ==> r.sleeps[k] == Wait(history(k), Backoff(k)))
    decreases MaxRetryAttempts - attempt
  {
    if !(|got| >= limit || attempt >= MaxRetryAttempts) {
      var run := history(attempt);
      var more := got + Take(run.msgs, limit - |got|);
      assert more[..|got|] == got;
      if run.Interrupted? && run.status == 429 {
        var s := sleeps + [Wait(run, Backoff(attempt))];
        FetchFacts(history, limit, attempt + 1, more, s);
        var r := FetchFrom(history, limit, attempt + 1, more, Backoff(attempt + 1), s);
        if r.Fetched? {
          assert r.msgs[..|got|] == r.msgs[..|more|][..|got|];
          assert r.sleeps[..attempt] == r.sleeps[..attempt + 1][..attempt];
          assert r.sleeps[attempt] == r.sleeps[..attempt + 1][attempt];
        }
      }
    }
  }

  /** Three rate limits in a row end the fetch with what the three passes yielded, and no error. */
  lemma ThreeRateLimits(history: nat -> HistoryRun, limit: int)
    requires limit > 0
    requires forall k :: 0 <= k < 3 ==> history(k).Interrupted? && history(k).status == 429 && history(k).msgs == []
    ensures FetchFrom(history, limit, 0, [], 1.0, []) ==
              Fetched([], [Wait(history(0), 1.0), Wait(history(1), 1.5), Wait(history(2), 2.25)])
  {
  }

  /** The while loop of `fetch_messages_with_backoff`. */
  method FetchWithBackoff(history: nat -> HistoryRun, limit: int) returns (r: FetchResult)
    ensures r == FetchFrom(history, limit, 0, [], 1.0, [])
  {
    var messages: seq<Msg> := [];
    var delay := 1.0;
    var attempt: nat := 0;
    var sleeps: seq<real> := [];
    ghost var goal := FetchFrom(history, limit, attempt, messages, delay, sleeps);
    while |messages| < limit && attempt < MaxRetryAttempts
      invariant attempt <= MaxRetryAttempts
      invariant FetchFrom(history, limit, attempt, messages, delay, sleeps) == goal
      decreases MaxRetryAttempts - attempt
    {
      var run := history(attempt);
      ghost var before := messages;
      messages := messages + Take(run.msgs, limit - |messages|);
      if run.Complete? {
        assert FetchFrom(history, limit, attempt, before, delay, sleeps) == Fetched(messages, sleeps);
        break;
      }
      assert FetchFrom(history, limit, attempt, before, delay, sleeps)
          == if run.status == 429 then FetchFrom(history, limit, attempt + 1, messages, Grow(delay), sleeps + [Wait(run, delay)])
             else FetchError(run.status);
      if run.status != 429 {
        return FetchError(run.status);
      }
      sleeps := sleeps + [Wait(run, delay)];
      delay := Grow(delay);
      attempt := attempt + 1;
    }
    r := Fetched(messages, sleeps);
  }

  // ---------------------------------------------------------------------------
  // `delete_messages_with_retry`
  // ---------------------------------------------------------------------------

  /** One deletion call: it succeeds, raises an HTTP error, or raises something else. */
  datatype Attempt = Done | Http(status: int, retryAfter: Option<real>) | Crash

  /** `SingleRaised`: a lone message's deletion raised something other than an HTTP error, which is not caught and leaves the function. */
  datatype DeleteReply = NothingToDelete | DeletedOne | SingleFailed | SingleRaised | DeletedAll(n: nat) | BulkFailed | MaxRetriesReached

  /** How a lone message's deletion ends: only an HTTP error is caught. */
  function SingleOutcome(single: Attempt): (r: DeleteReply)
    ensures r == DeletedOne <==> single.Done?
    ensures r == SingleFailed <==> single.Http?
    ensures r == SingleRaised <==> single.Crash?
  {
    match single
    case Done => DeletedOne
    case Http(_, _) => SingleFailed
    case Crash => SingleRaised
  }

  /**
   * The bulk retry loop from attempt `attempt`: a 429 is retried while
   * attempts remain; every other failure ends it. Once an attempt is made,
   * the loop ends in success or a failure with the error's text, so "Max
   * retry attempts reached" comes only with no attempts at all; it waits
   * fewer times than it has attempts left, and only after a 429.
   */
  function Bulk(bulk: nat -> Attempt, maxRetries: int, attempt: nat, delay: real, count: nat): (r: (DeleteReply, seq<real>))
    ensures r.0 == MaxRetriesReached <==> attempt >= maxRetries
    ensures r.0 == DeletedAll(count) || r.0 == BulkFailed || r.0 == MaxRetriesReached
    ensures attempt < maxRetries ==> |r.1| < maxRetries - attempt
    ensures |r.1| > 0 ==> bulk(attempt).Http? && bulk(attempt).status == 429
    decreases maxRetries - attempt
  {
    if attempt >= maxRetries then (MaxRetriesReached, [])
    else
      var a := bulk(attempt);
      if a.Done? then (DeletedAll(count), [])
      else if a.Http? && a.status == 429 && attempt < maxRetries - 1 then
        var rest := Bulk(bulk, maxRetries, attempt + 1, Grow(delay), count);
        (rest.0, [if a.retryAfter.Some? then a.retryAfter.value else delay] + rest.1)
      else (BulkFailed, [])
  }

  /** Once an attempt is made, the loop succeeds exactly when some attempt works after nothing but 429s. */
  lemma {:induction false} BulkFacts(bulk: nat -> Attempt, maxRetries: int, attempt: nat, delay: real, count: nat)
    requires attempt < maxRetries
    ensures var r := Bulk(bulk, maxRetries, attempt, delay, count);
            (r.0 == DeletedAll(count) <==> exists k :: attempt <= k < maxRetries && bulk(k).Done?
                                                    && forall j :: attempt <= j < k ==> bulk(j).Http? && bulk(j).status == 429)
    decreases maxRetries - attempt
  {
    var a := bulk(attempt);
    if a.Done? {
      assert attempt <= attempt < maxRetries && bulk(attempt).Done?;
    } else if a.Http? && a.status == 429 && attempt < maxRetries - 1 {
      BulkFacts(bulk, maxRetries, attempt + 1, Grow(delay), count);
      var r := Bulk(bulk, maxRetries, attempt + 1, Grow(delay), count);
      if r.0 == DeletedAll(count) {
        var k :| attempt + 1 <= k < maxRetries && bulk(k).Done? && forall j :: attempt + 1 <= j < k ==> bulk(j).Http? && bulk(j).status == 429;
        assert attempt <= k < maxRetries && bulk(k).Done? && forall j :: attempt <= j < k ==> bulk(j).Http? && bulk(j).status == 429;
      }
    } else {
      assert !(a.Http? && a.status == 429) || attempt == maxRetries - 1;
    }
  }

  /**
   * `delete_messages_with_retry`: nothing to delete is a failure, a single
   * message is deleted on its own, and more go through the bulk retry loop.
   */
  method DeleteWithRetry(count: nat, single: Attempt, bulk: nat -> Attempt, maxRetries: int)
    returns (ok: bool, reply: DeleteReply, sleeps: seq<real>)
    ensures ok <==> reply.DeletedOne? || reply.DeletedAll?
    ensures count == 0 ==> reply == NothingToDelete && sleeps == []
    ensures count == 1 ==> reply == SingleOutcome(single) && sleeps == []
    ensures count >= 2 ==> (reply, sleeps) == Bulk(bulk, maxRetries, 0, 1.0, count)
  {
    if count == 0 {
      return false, NothingToDelete, [];
    }
    if count == 1 {
      if single.Done? {
        return true, DeletedOne, [];
      } else if single.Http? {
        return false, SingleFailed, [];
      }
      return false, SingleRaised, [];
    }
    var delay := 1.0;
    var attempt: nat := 0;
    sleeps := [];
    assert sleeps + Bulk(bulk, maxRetries, 0, 1.0, count).1 == Bulk(bulk, maxRetries, 0, 1.0, count).1;
    while attempt < maxRetries
      invariant Bulk(bulk, maxRetries, 0, 1.0, count) == (Bulk(bulk, maxRetries, attempt, delay, count).0,
                                                          sleeps + Bulk(bulk, maxRetries, attempt, delay, count).1)
      decreases maxRetries - attempt
    {
      var a := bulk(attempt);
      if a.Done? {
        assert Bulk(bulk, maxRetries, attempt, delay, count) == (DeletedAll(count), []);
        assert sleeps + [] == sleeps;
        return true, DeletedAll(count), sleeps;
      }
      if a.Http? && a.status == 429 && attempt < maxRetries - 1 {
        var wait := if a.retryAfter.Some? then a.retryAfter.value else delay;
        assert Bulk(bulk, maxRetries, attempt, delay, count)
            == (Bulk(bulk, maxRetries, attempt + 1, Grow(delay), count).0, [wait] + Bulk(bulk, maxRetries, attempt + 1, Grow(delay), count).1);
        assert sleeps + ([wait] + Bulk(bulk, maxRetries, attempt + 1, Grow(delay), count).1)
            == (sleeps + [wait]) + Bulk(bulk, maxRetries, attempt + 1, Grow(delay), count).1;
        sleeps := sleeps + [wait];
        delay := Grow(delay);
        attempt := attempt + 1;
      } else {
        assert Bulk(bulk, maxRetries, attempt, delay, count) == (BulkFailed, []);
        assert sleeps + [] == sleeps;
        return false, BulkFailed, sleeps;
      }
    }
    assert Bulk(bulk, maxRetries, attempt, delay, count) == (MaxRetriesReached, []);
    assert sleeps + [] == sleeps;
    return false, MaxRetriesReached, sleeps;
  }

  // ---------------------------------------------------------------------------
  // `purge_prefix`
  // ---------------------------------------------------------------------------

  datatype PurgeReply =
    | AskForArgument
    | InvalidArgument
    | InvalidMention
    | FetchFailed(status: int)
    | NoneFound(tooOld: nat)
    | Purged(ok: bool, reply: DeleteReply, tooOld: nat)
    | Raised

  /**
   * The command: refuse a bad argument; otherwise fetch up to the amount,
   * select, and delete the selection with the default three attempts.
   */
  method PurgePrefix(arg: string, isMember: int -> bool, history: nat -> HistoryRun, now: int,
                     single: Attempt, bulk: nat -> Attempt)
    returns (reply: PurgeReply)
    ensures var p := ParseArg(arg, isMember);
            && (p.Missing? <==> reply.AskForArgument?)
            && (p.Invalid? <==> reply.InvalidArgument?)
            && (p.BadMention? <==> reply.InvalidMention?)
            && (p.Purge? ==>
                  var f := FetchFrom(history, p.amount, 0, [], 1.0, []);
                  if f.FetchError? then reply == FetchFailed(f.status)
                  else
                    var kept := Selected(f.msgs, now, p.filter);
                    var old_ := TooOld(f.msgs, now);
                    if kept == [] then reply == NoneFound(old_)
                    else if |kept| == 1 && single.Crash? then reply == Raised
                    else reply.Purged? && reply.tooOld == old_
                         && (reply.reply, reply.ok) == (if |kept| == 1 then (SingleOutcome(single), single.Done?)
                                                        else (Bulk(bulk, 3, 0, 1.0, |kept|).0, Bulk(bulk, 3, 0, 1.0, |kept|).0.DeletedAll?)))
  {
    var p := ParseArg(arg, isMember);
    match p
    case Missing => return AskForArgument;
    case Invalid => return InvalidArgument;
    case BadMention => return InvalidMention;
    case Purge(amount, filter) =>
      var fetched := FetchWithBackoff(history, amount);
      if fetched.FetchError? {
        return FetchFailed(fetched.status);
      }
      var kept, tooOld := ProcessMessages(fetched.msgs, now, filter);
      if kept == [] {
        return NoneFound(tooOld);
      }
      if |kept| >= 2 {
        BulkFacts(bulk, 3, 0, 1.0, |kept|);
      }
      var ok, deleted, _ := DeleteWithRetry(|kept|, single, bulk, 3);
      if deleted == SingleRaised {
        return Raised;
      }
      reply := Purged(ok, deleted, tooOld);
  }
}
