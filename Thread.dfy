/**
 * `cogs/thread.py`: a thread is opened under every message with
 * attachments in a configured channel, subject to a per-channel token
 * bucket and a per-user cooldown, with a bounded retry of the creation.
 *
 * Time is `time.time()` / `datetime.now()` in seconds as a `real`, passed
 * in as `now`. Ids (strings in the source) are integers here.
 */
module Thread {
  import opened Common

  const Capacity: real := 5.0
  const MaxName := 50
  const MaxCooldown := 3600
  const DefaultCooldown := 30
  const DefaultArchive := 1440
  const MaxRetries := 3

  function RMin(a: real, b: real): real { if a <= b then a else b }

  // ---------------------------------------------------------------------------
  // The token bucket
  // ---------------------------------------------------------------------------

  /** One channel's bucket: its tokens and the time of the last refill. */
  datatype Bucket = Bucket(tokens: real, lastRefill: real)

  /** A fresh bucket, as the `defaultdict` creates it. */
  function FreshBucket(now: real): Bucket { Bucket(Capacity, now) }

  /** One `check_channel_rate_limit` on a bucket: refill half a token per second up to five, then take one if there is one. */
  function TakeToken(b: Bucket, now: real): (r: (bool, Bucket))
    ensures r.1.lastRefill == now && r.1.tokens <= Capacity
    ensures var refilled := RMin(Capacity, b.tokens + (now - b.lastRefill) / 2.0);
            && (r.0 <==> refilled >= 1.0)
            && r.1.tokens == (if r.0 then refilled - 1.0 else refilled)
    ensures 0.0 <= b.tokens && b.lastRefill <= now ==> 0.0 <= r.1.tokens
  {
    var refilled := RMin(Capacity, b.tokens + (now - b.lastRefill) / 2.0);
    if refilled >= 1.0 then (true, Bucket(refilled - 1.0, now)) else (false, Bucket(refilled, now))
  }

  /** Checks at the given times, in order: how many were allowed, and the bucket afterwards. */
  function Run(b: Bucket, times: seq<real>): (nat, Bucket)
  {
    if times == [] then (0, b)
    else
      var (n, mid) := Run(b, times[..|times| - 1]);
      var (ok, last) := TakeToken(mid, times[|times| - 1]);
      (if ok then n + 1 else n, last)
  }

  predicate Ascending(b: Bucket, times: seq<real>)
  {
    (forall i :: 0 <= i < |times| ==> b.lastRefill <= times[i])
    && forall i, j :: 0 <= i < j < |times| ==> times[i] <= times[j]
  }

  /**
   * The bucket's promise: over checks at non-decreasing times, the number
   * allowed plus the tokens left never exceeds the tokens at the start
   * plus half a token per second elapsed, so no more than five plus
   * elapsed/2 threads open.
   */
  lemma {:induction false} RunBounded(b: Bucket, times: seq<real>)
    requires 0.0 <= b.tokens && Ascending(b, times)
    ensures var (n, last) := Run(b, times);
            && 0.0 <= last.tokens
            && last.lastRefill == (if times == [] then b.lastRefill else times[|times| - 1])
            && n as real + last.tokens <= b.tokens + (last.lastRefill - b.lastRefill) / 2.0
  {
    if times != [] {
      var init := times[..|times| - 1];
      assert Ascending(b, init);
      RunBounded(b, init);
      var (n, mid) := Run(b, init);
      assert mid.lastRefill <= times[|times| - 1] by {
        if init != [] {
          assert times[|init| - 1] <= times[|times| - 1];
        }
      }
    }
  }

  /** A bucket that starts full allows at most five checks plus half one per second since. */
  lemma AtMostFivePlusRefill(now: real, times: seq<real>)
    requires Ascending(FreshBucket(now), times) && times != []
    ensures Run(FreshBucket(now), times).0 as real <= Capacity + (times[|times| - 1] - now) / 2.0
  {
    RunBounded(FreshBucket(now), times);
  }

  // ---------------------------------------------------------------------------
  // Names, cooldowns, configuration
  // ---------------------------------------------------------------------------

  /** `str.isprintable()` on one character: no C0 or C1 control and no DEL. */
  predicate Printable(c: char)
  {
    ' ' <= c && !('\U{7F}' <= c <= '\U{9F}')
  }

  /** `sanitize_thread_name`: printable characters, stripped, at most 50; "Thread by <author>" when nothing is left. */
  function SanitizeName(name: string, author: string): (r: string)
    ensures 0 < |r| <= MaxName
    ensures Strip(Filter(name, Printable)) != "" ==> r == Take(Strip(Filter(name, Printable)), MaxName)
    ensures Strip(Filter(name, Printable)) == "" ==> r == Take("Thread by " + author, MaxName)
  {
    var kept := Take(Strip(Filter(name, Printable)), MaxName);
    if kept != "" then kept else Take("Thread by " + author, MaxName)
  }

  /** A name taken from the message keeps only printable characters. */
  lemma SanitizedPrintable(name: string, author: string)
    requires Strip(Filter(name, Printable)) != ""
    ensures forall c :: c in SanitizeName(name, author) ==> Printable(c) && c in name
  {
    var f := Filter(name, Printable);
    assert SanitizeName(name, author) == Take(Strip(f), MaxName);
    forall c | c in SanitizeName(name, author)
      ensures c in f
    {
      TakeStripWithin(f, MaxName, c);
    }
  }

  /** The stored settings of a configured channel. */
  datatype ChannelConfig = ChannelConfig(cooldown: int, archive: int)

  datatype Permission = CreatePublicThreads | SendInThreads | ViewChannel

  datatype ConfigureReply =
    | InvalidCooldown
    | Disabled
    | RemoveFailed
    | Missing(p: Permission)
    | Enabled
    | SaveFailed
    | Errored

  /** The outcome of one `create_thread` call. */
  datatype Attempt = Created | RateLimited(retryAfter: real) | Forbidden | HttpError | Unexpected

  datatype CreateResult = Made | NoPermission | BusyGaveUp | FailedGaveUp | Crashed

  predicate Retried(a: Attempt) { a.RateLimited? || a.HttpError? }

  /** `retry_delay * 2 ** attempt` with a delay of one second. */
  function Backoff(attempt: nat): (r: nat)
    ensures r >= 1
  {
    if attempt == 0 then 1 else 2 * Backoff(attempt - 1)
  }

  /** The sleep before the next attempt: the server's `retry_after`, or one second doubled per attempt. */
  function Delay(a: Attempt, attempt: nat): real
  {
    if a.RateLimited? then a.retryAfter else Backoff(attempt) as real
  }

  /** The retry loop of `on_message`, as intended: up to three attempts, sleeping between them. */
  function Creation(outcome: nat -> Attempt, from: nat): (r: (CreateResult, nat, seq<real>))
    requires from < MaxRetries
    ensures from < r.1 <= MaxRetries && |r.2| == r.1 - from - 1
    decreases MaxRetries - from, 1
  {
    match outcome(from)
    case Created => (Made, from + 1, [])
    case Forbidden => (NoPermission, from + 1, [])
    case Unexpected => (Crashed, from + 1, [])
    case RateLimited(_) =>
      if from < MaxRetries - 1 then Again(outcome, from) else (BusyGaveUp, MaxRetries, [])
    case HttpError =>
      if from < MaxRetries - 1 then Again(outcome, from) else (FailedGaveUp, MaxRetries, [])
  }

  /** Sleep after attempt `from`, then go on with the next one. */
  function Again(outcome: nat -> Attempt, from: nat): (r: (CreateResult, nat, seq<real>))
    requires from < MaxRetries - 1
    ensures from + 1 < r.1 <= MaxRetries && |r.2| == r.1 - from - 1
    decreases MaxRetries - from, 0
  {
    var rest := Creation(outcome, from + 1);
    (rest.0, rest.1, [Delay(outcome(from), from)] + rest.2)
  }

  /** Attempt `k` creates the thread and every attempt from `from` before it was retried. */
  predicate MadeAt(outcome: nat -> Attempt, from: nat, k: nat)
  {
    from <= k < MaxRetries && outcome(k) == Created && forall j :: from <= j < k ==> Retried(outcome(j))
  }

  /** A thread is made exactly when some attempt among the three creates it and every earlier one was retried. */
  lemma {:induction false} MadeIff(outcome: nat -> Attempt, from: nat)
    requires from < MaxRetries
    ensures Creation(outcome, from).0 == Made <==> exists k :: MadeAt(outcome, from, k)
    decreases MaxRetries - from
  {
    if outcome(from) == Created {
      assert MadeAt(outcome, from, from);
    } else if Retried(outcome(from)) && from < MaxRetries - 1 {
      assert Creation(outcome, from).0 == Creation(outcome, from + 1).0;
      MadeIff(outcome, from + 1);
      if Creation(outcome, from).0 == Made {
        var k :| MadeAt(outcome, from + 1, k);
        assert MadeAt(outcome, from, k);
      }
      if exists k :: MadeAt(outcome, from, k) {
        var k :| MadeAt(outcome, from, k);
        assert MadeAt(outcome, from + 1, k);
      }
    } else {
      assert Creation(outcome, from).0 != Made;
      forall k | from <= k < MaxRetries
        ensures !MadeAt(outcome, from, k)
      {
        if k > from {
          assert !Retried(outcome(from)) || from == MaxRetries - 1;
        }
      }
    }
  }

  /** The loop itself. */
  method CreateWithRetry(outcome: nat -> Attempt) returns (r: CreateResult, attempts: nat, delays: seq<real>)
    ensures (r, attempts, delays) == Creation(outcome, 0)
  {
    var attempt := 0;
    delays := [];
    assert delays + Creation(outcome, 0).2 == Creation(outcome, 0).2;
    while true
      invariant 0 <= attempt < MaxRetries
      invariant Creation(outcome, 0) == var rest := Creation(outcome, attempt); (rest.0, rest.1, delays + rest.2)
      decreases MaxRetries - attempt
    {
      var a := outcome(attempt);
      if !Retried(a) {
        r := if a.Created? then Made else if a.Forbidden? then NoPermission else Crashed;
        attempts := attempt + 1;
        assert delays + [] == delays;
        return;
      }
      if attempt == MaxRetries - 1 {
        r := if a.RateLimited? then BusyGaveUp else FailedGaveUp;
        attempts := MaxRetries;
        assert delays + [] == delays;
        return;
      }
      ghost var rest := Creation(outcome, attempt + 1);
      assert Creation(outcome, attempt) == (rest.0, rest.1, [Delay(a, attempt)] + rest.2);
      assert delays + ([Delay(a, attempt)] + rest.2) == (delays + [Delay(a, attempt)]) + rest.2;
      delays := delays + [Delay(a, attempt)];
      attempt := attempt + 1;
    }
  }

  /**
   * The retry loop as written: the module never imports `asyncio`, so the
   * first rate-limit or HTTP error raises a `NameError` out of the
   * handler; the message's commands are then never processed either.
   */
  function CreationAsWritten(outcome: nat -> Attempt): (r: Option<CreateResult>)
    ensures r.None? <==> Retried(outcome(0))
  {
    match outcome(0)
    case Created => Some(Made)
    case Forbidden => Some(NoPermission)
    case Unexpected => Some(Crashed)
    case _ => None
  }

  /** One HTTP error followed by a success: the intended loop makes the thread, the written one dies. */
  lemma RetryNeverHappens()
    ensures var outcome := (k: nat) => if k == 0 then HttpError else Created;
            CreationAsWritten(outcome).None? && Creation(outcome, 0).0 == Made
  {
    var outcome := (k: nat) => if k == 0 then HttpError else Created;
    assert Creation(outcome, 1) == (Made, 2, []);
  }

  /** A day's `stats` document. */
  datatype Stats = Stats(total: nat, channels: map<int, nat>, users: map<int, nat>)

  function Incremented(m: map<int, nat>, k: int): (r: map<int, nat>)
    ensures k in r && r[k] == (if k in m then m[k] else 0) + 1
    ensures forall j :: j != k ==> (j in r <==> j in m) && (j in m ==> r[j] == m[j])
  {
    m[k := (if k in m then m[k] else 0) + 1]
  }

  /** No channel or user counter of a day exceeds the day's total. */
  predicate StatsBounded(s: Stats)
  {
    (forall c :: c in s.channels ==> s.channels[c] <= s.total)
    && forall u :: u in s.users ==> s.users[u] <= s.total
  }

  /** The statistics after one more thread by `u` in `ch` on `day`: that day's total and both counters go up by one, every other day stays. */
  function Counted(stats: map<(int, int), Stats>, g: int, day: int, ch: int, u: int): (r: map<(int, int), Stats>)
    ensures (g, day) in r && r.Keys == stats.Keys + {(g, day)}
    ensures r[(g, day)].total == (if (g, day) in stats then stats[(g, day)].total else 0) + 1
    ensures forall k :: k in stats && k != (g, day) ==> r[k] == stats[k]
    ensures (g, day) !in stats || StatsBounded(stats[(g, day)]) ==> StatsBounded(r[(g, day)])
  {
    var s := if (g, day) in stats then stats[(g, day)] else Stats(0, map[], map[]);
    stats[(g, day) := Stats(s.total + 1, Incremented(s.channels, ch), Incremented(s.users, u))]
  }

  /** What `on_message` did with a message. */
  datatype MessageOutcome =
    | Ignored
    | NotWatched
    | ChannelThrottled
    | OnCooldown(remaining: real)
    | Attempted(result: CreateResult, attempts: nat)

  // ---------------------------------------------------------------------------
  // The cog
  // ---------------------------------------------------------------------------

  class ThreadCog {
    /** `channel_rate_limits`. */
    var buckets: map<int, Bucket>
    /** The `guild_configs` collection, by (guild, channel). */
    var configs: map<(int, int), ChannelConfig>
    /** The `cooldowns` collection: `last_used` by (guild, user). */
    var cooldowns: map<(int, int), real>
    /** The `stats` collection, by (guild, day). */
    var stats: map<(int, int), Stats>

    /** Every bucket holds at most five tokens and no day's counter exceeds its total. */
    predicate Valid()
      reads this
    {
      (forall ch :: ch in buckets ==> buckets[ch].tokens <= Capacity)
      && forall k :: k in stats ==> StatsBounded(stats[k])
    }

    constructor()
      ensures Valid() && buckets == map[] && configs == map[] && cooldowns == map[] && stats == map[]
    {
      buckets := map[];
      configs := map[];
      cooldowns := map[];
      stats := map[];
    }

    function BucketAt(ch: int, now: real): Bucket
      reads this
    {
      if ch in buckets then buckets[ch] else FreshBucket(now)
    }

    /** `check_channel_rate_limit`. */
    method CheckChannelRateLimit(ch: int, now: real) returns (allowed: bool)
      requires Valid()
      modifies this
      ensures Valid()
      ensures ch in buckets && (allowed, buckets[ch]) == TakeToken(old(BucketAt(ch, now)), now)
      ensures buckets == old(buckets)[ch := buckets[ch]]
      ensures configs == old(configs) && cooldowns == old(cooldowns) && stats == old(stats)
    {
      var t := TakeToken(BucketAt(ch, now), now);
      buckets := buckets[ch := t.1];
      allowed := t.0;
    }

    /** `is_on_cooldown`: on cooldown, with the seconds left, iff the last thread is younger than the cooldown. */
    function IsOnCooldown(g: int, u: int, cooldown: int, now: real): (r: (bool, real))
      reads this
      ensures r.0 <==> (g, u) in cooldowns && now - cooldowns[(g, u)] < cooldown as real
      ensures r.0 ==> r.1 == cooldown as real - (now - cooldowns[(g, u)]) && r.1 > 0.0
      ensures !r.0 ==> r.1 == 0.0
    {
      if (g, u) in cooldowns && now - cooldowns[(g, u)] < cooldown as real then
        (true, cooldown as real - (now - cooldowns[(g, u)]))
      else (false, 0.0)
    }

    /** `update_cooldown`: an upsert of `last_used`; a failed write is only logged. */
    method UpdateCooldown(g: int, u: int, now: real, ok: bool)
      modifies this
      ensures cooldowns == if ok then old(cooldowns)[(g, u) := now] else old(cooldowns)
      ensures buckets == old(buckets) && configs == old(configs) && stats == old(stats)
    {
      if ok {
        cooldowns := cooldowns[(g, u) := now];
      }
    }

    /** `record_stats`: the day's total and the channel's and user's counts go up by one; a failed write is only logged. */
    method RecordStats(g: int, day: int, ch: int, u: int, ok: bool)
      requires Valid()
      modifies this
      ensures Valid()
      ensures stats == if ok then Counted(old(stats), g, day, ch, u) else old(stats)
      ensures buckets == old(buckets) && configs == old(configs) && cooldowns == old(cooldowns)
    {
      if ok {
        stats := Counted(stats, g, day, ch, u);
      }
    }

    /** A message the handler looks at: from a member, in a guild, with attachments, in a configured channel. */
    predicate Watched(g: int, ch: int, bot: bool, inGuild: bool, attachments: bool)
      reads this
    {
      !bot && inGuild && (g, ch) in configs && attachments
    }

    /**
     * `on_message`: bots and direct messages are ignored; a message without
     * attachments or outside a configured channel only has its commands
     * processed; then the channel's bucket, then the user's cooldown, then
     * the retried creation. The cooldown and the statistics move only when
     * the thread was made.
     */
    method OnMessage(g: int, ch: int, u: int, bot: bool, inGuild: bool, attachments: bool, now: real, day: int,
                     outcome: nat -> Attempt, cooldownOk: bool, statsOk: bool)
      returns (o: MessageOutcome)
      requires Valid()
      modifies this
      ensures Valid() && configs == old(configs)
      ensures o == Ignored <==> bot || !inGuild
      ensures o == NotWatched <==> !bot && inGuild && !((g, ch) in configs && attachments)
      ensures o == Ignored || o == NotWatched ==> buckets == old(buckets)
      ensures o != Ignored && o != NotWatched ==> buckets == old(buckets)[ch := TakeToken(old(BucketAt(ch, now)), now).1]
      ensures o == ChannelThrottled <==> Watched(g, ch, bot, inGuild, attachments) && !TakeToken(old(BucketAt(ch, now)), now).0
      ensures o.OnCooldown? <==> Watched(g, ch, bot, inGuild, attachments) && TakeToken(old(BucketAt(ch, now)), now).0
                                 && old(IsOnCooldown(g, u, configs[(g, ch)].cooldown, now)).0
      ensures o.OnCooldown? ==> o.remaining == old(IsOnCooldown(g, u, configs[(g, ch)].cooldown, now)).1 > 0.0
      ensures o.Attempted? ==> o == Attempted(Creation(outcome, 0).0, Creation(outcome, 0).1)
      ensures o.Attempted? ==> !old(IsOnCooldown(g, u, configs[(g, ch)].cooldown, now)).0
      ensures cooldowns == if o.Attempted? && o.result == Made && cooldownOk then old(cooldowns)[(g, u) := now]
                           else old(cooldowns)
      ensures stats == if o.Attempted? && o.result == Made && statsOk then Counted(old(stats), g, day, ch, u)
                       else old(stats)
    {
      if bot || !inGuild {
        return Ignored;
      }
      if (g, ch) !in configs || !attachments {
        return NotWatched;
      }
      var cfg := configs[(g, ch)];
      var allowed := CheckChannelRateLimit(ch, now);
      if !allowed {
        return ChannelThrottled;
      }
      var cd := IsOnCooldown(g, u, cfg.cooldown, now);
      if cd.0 {
        return OnCooldown(cd.1);
      }
      var r, attempts, _ := CreateWithRetry(outcome);
      if r == Made {
        UpdateCooldown(g, u, now, cooldownOk);
        RecordStats(g, day, ch, u, statsOk);
      }
      o := Attempted(r, attempts);
    }

    /**
     * `/thread_channel`: the cooldown must lie in 0..3600; a configured
     * channel is switched off; otherwise the bot's three permissions are
     * checked in order and the channel is switched on with its settings.
     */
    method ConfigureChannel(g: int, ch: int, cooldown: int, archive: int, readOk: bool, canCreate: bool, canSend: bool,
                            canView: bool, writeOk: bool)
      returns (reply: ConfigureReply)
      requires Valid()
      modifies this
      ensures Valid() && buckets == old(buckets) && cooldowns == old(cooldowns) && stats == old(stats)
      ensures reply == InvalidCooldown <==> !(0 <= cooldown <= MaxCooldown)
      ensures reply == Disabled <==> 0 <= cooldown <= MaxCooldown && readOk && (g, ch) in old(configs) && writeOk
      ensures reply == Enabled <==> 0 <= cooldown <= MaxCooldown && readOk && (g, ch) !in old(configs)
                                    && canCreate && canSend && canView && writeOk
      ensures reply == Missing(CreatePublicThreads) ==> !canCreate
      ensures reply == Missing(SendInThreads) ==> canCreate && !canSend
      ensures reply == Missing(ViewChannel) ==> canCreate && canSend && !canView
      ensures configs == if reply == Disabled then old(configs) - {(g, ch)}
                         else if reply == Enabled then old(configs)[(g, ch) := ChannelConfig(cooldown, archive)]
                         else old(configs)
      ensures reply == Disabled || reply == Enabled ==> ((g, ch) in configs <==> (g, ch) !in old(configs))
    {
      if !(0 <= cooldown <= MaxCooldown) {
        return InvalidCooldown;
      }
      if !readOk {
        return Errored;
      }
      if (g, ch) in configs {
        if writeOk {
          configs := configs - {(g, ch)};
          return Disabled;
        }
        return RemoveFailed;
      }
      if !canCreate {
        return Missing(CreatePublicThreads);
      }
      if !canSend {
        return Missing(SendInThreads);
      }
      if !canView {
        return Missing(ViewChannel);
      }
      if !writeOk {
        return SaveFailed;
      }
      configs := configs[(g, ch) := ChannelConfig(cooldown, archive)];
      reply := Enabled;
    }
  }
}
