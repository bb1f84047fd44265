/**
 * The drop system: an administrator posts a drop with a prize and a number
 * of winners, and the first members to press Claim win it. A member who won
 * any drop waits 24 hours before the next claim, and five claims within a
 * minute count as spam.
 */
module Drops {
  import opened Common

  const CooldownSeconds: int := 24 * 3600
  const SpamWindow: int := 60
  const SpamClaims: nat := 5
  /** `deque(maxlen=500)`. */
  const RecentCapacity: nat := 500
  const MaxPrizeLength: nat := 100

  // ---------------------------------------------------------------------
  // The creation form
  // ---------------------------------------------------------------------

  /** The Winner Count field: empty or not a number gives 1, anything else is clamped to 1..10. */
  function WinnerCount(raw: string): (wc: int)
    ensures 1 <= wc <= 10
    ensures raw == [] || ParseInt(raw).None? ==> wc == 1
    ensures raw != [] && ParseInt(raw).Some? && 1 <= ParseInt(raw).value <= 10 ==> wc == ParseInt(raw).value
    ensures raw != [] && ParseInt(raw).Some? && ParseInt(raw).value < 1 ==> wc == 1
    ensures raw != [] && ParseInt(raw).Some? && ParseInt(raw).value > 10 ==> wc == 10
  {
    if raw == [] then 1
    else match ParseInt(raw)
      case None => 1
      case Some(v) => Clamp(v, 1, 10)
  }

  /** The Prize Name field: stripped, non-empty and at most 100 characters. */
  function PrizeName(raw: string): (r: Option<string>)
    ensures r.Some? <==> 0 < |Strip(raw)| <= MaxPrizeLength
    ensures r.Some? ==> r.value == Strip(raw)
  {
    var p := Strip(raw);
    if p == [] || |p| > MaxPrizeLength then None else Some(p)
  }

  /** `drop_leaderboard`'s `top_n`, clamped to 1..50. */
  function LeaderboardSize(topN: int): (n: int)
    ensures 1 <= n <= 50
    ensures 1 <= topN <= 50 ==> n == topN
  {
    Clamp(topN, 1, 50)
  }

  // ---------------------------------------------------------------------
  // Records
  // ---------------------------------------------------------------------

  /** A drop's id, `<guild>_<channel>_<unix time>`. */
  datatype DropId = DropId(guildId: int, channelId: int, createdAt: int)

  /** A row of `drops`. */
  datatype Drop = Drop(guildId: int, prize: string, winnerCount: int, winners: seq<int>, completed: bool)

  /** Distinct winners, never more than asked for, and completed exactly when all are in. */
  predicate DropOk(d: Drop)
  {
    1 <= d.winnerCount && NoDup(d.winners) && |d.winners| <= d.winnerCount
    && (d.completed <==> |d.winners| >= d.winnerCount)
  }

  /** A row of `claim_logs`. */
  datatype ClaimLog = ClaimLog(dropId: DropId, userId: int, claimedAt: int)

  /** An entry of `recent_claims`. */
  datatype RecentClaim = RecentClaim(at: int, userId: int)

  /** The front of the deque with entries older than `window` popped, as `is_spam`'s loop leaves it. */
  function Pruned(s: seq<RecentClaim>, window: int): (r: seq<RecentClaim>)
    ensures |r| <= |s| && r == s[|s| - |r|..]
    ensures r != [] ==> r[0].at >= window
    ensures forall i :: 0 <= i < |s| - |r| ==> s[i].at < window
  {
    if s != [] && s[0].at < window then
      var rest := Pruned(s[1..], window);
      assert s[1..][|s[1..]| - |rest|..] == s[|s| - |rest|..];
      rest
    else s
  }

  function ClaimsBy(s: seq<RecentClaim>, u: int): (n: nat)
    ensures n <= |s|
  {
    if s == [] then 0 else (if s[0].userId == u then 1 else 0) + ClaimsBy(s[1..], u)
  }

  /** `deque.append` on a deque of at most 500 entries. */
  function Appended(s: seq<RecentClaim>, c: RecentClaim): (r: seq<RecentClaim>)
    ensures |s| <= RecentCapacity ==> |r| == Min(|s| + 1, RecentCapacity)
    ensures 1 <= |r| <= |s| + 1 && r == (s + [c])[|s| + 1 - |r|..] && r[|r| - 1] == c
  {
    var t := s + [c];
    if |t| > RecentCapacity then t[|t| - RecentCapacity..] else t
  }

  predicate TimesSorted(s: seq<RecentClaim>)
  {
    forall i, j :: 0 <= i < j < |s| ==> s[i].at <= s[j].at
  }

  /** With claims recorded in time order, pruning leaves exactly the last minute. */
  lemma PrunedIsWindow(s: seq<RecentClaim>, window: int)
    requires TimesSorted(s)
    ensures forall i :: 0 <= i < |Pruned(s, window)| ==> Pruned(s, window)[i].at >= window
  {
    var r := Pruned(s, window);
    forall i | 0 <= i < |r| ensures r[i].at >= window {
      var k := |s| - |r|;
      assert r[0] == s[k] && r[i] == s[k + i];
    }
  }

  /** Pruning twice at the same time changes nothing. */
  lemma PrunedIdempotent(s: seq<RecentClaim>, window: int)
    ensures Pruned(Pruned(s, window), window) == Pruned(s, window)
  {
  }

  /** Remaining cooldown of a member, if any: 24 hours after the last win. */
  function CooldownLeft(cooldowns: map<int, int>, u: int, now: int): (r: Option<int>)
    ensures r.Some? ==> u in cooldowns && now < cooldowns[u] + CooldownSeconds
                        && r.value == cooldowns[u] + CooldownSeconds - now && r.value > 0
    ensures r.None? ==> u !in cooldowns || now >= cooldowns[u] + CooldownSeconds
  {
    if u in cooldowns && now < cooldowns[u] + CooldownSeconds then Some(cooldowns[u] + CooldownSeconds - now) else None
  }

  /** A win starts a full day of cooldown. */
  lemma WinStartsCooldown(cooldowns: map<int, int>, u: int, at: int, now: int)
    requires at <= now
    ensures CooldownLeft(cooldowns[u := at], u, now).Some? <==> now < at + CooldownSeconds
  {
  }

  /** `divmod` twice: the `HH:MM:SS` of the cooldown message. */
  function Clock(left: nat): (r: (nat, nat, nat))
    ensures r.0 * 3600 + r.1 * 60 + r.2 == left && r.1 < 60 && r.2 < 60
  {
    (left / 3600, (left % 3600) / 60, (left % 3600) % 60)
  }

  datatype ClaimReply = TooManyClaims | NotActive | AlreadyWon | OnCooldown(h: nat, m: nat, s: nat)
                      | Claimed(completed: bool) | ClaimError

  // ---------------------------------------------------------------------
  // The cog and its tables
  // ---------------------------------------------------------------------

  class DropSystem {
    var drops: map<DropId, Drop>
    var cooldowns: map<int, int>
    var logs: seq<ClaimLog>
    var recent: seq<RecentClaim>
    /** The ids with an entry in `claim_locks`. */
    var locks: set<DropId>

    ghost predicate Valid()
      reads this
    {
      (forall id :: id in drops ==> DropOk(drops[id])) && |recent| <= RecentCapacity
    }

    constructor ()
      ensures Valid() && drops == map[] && cooldowns == map[] && logs == [] && recent == [] && locks == {}
    {
      drops := map[];
      cooldowns := map[];
      logs := [];
      recent := [];
      locks := {};
    }

    /** `create_drop`: a new row with no winners, not completed. */
    method CreateDrop(id: DropId, guildId: int, prize: string, wc: int, insertOk: bool) returns (ok: bool)
      requires Valid() && 1 <= wc <= 10
      modifies this
      ensures Valid() && cooldowns == old(cooldowns) && logs == old(logs) && recent == old(recent) && locks == old(locks)
      ensures ok <==> insertOk && id !in old(drops)
      ensures drops == if ok then old(drops)[id := Drop(guildId, prize, wc, [], false)] else old(drops)
    {
      if !insertOk || id in drops {
        return false;
      }
      drops := drops[id := Drop(guildId, prize, wc, [], false)];
      ok := true;
    }

    /** `is_spam`: pop entries older than a minute, then five or more of the member's. */
    method IsSpam(u: int, now: int) returns (spam: bool)
      requires Valid()
      modifies this
      ensures Valid() && drops == old(drops) && cooldowns == old(cooldowns) && logs == old(logs) && locks == old(locks)
      ensures recent == Pruned(old(recent), now - SpamWindow)
      ensures spam <==> ClaimsBy(recent, u) >= SpamClaims
    {
      var kept := PopOld(recent, now - SpamWindow);
      recent := kept;
      spam := ClaimsBy(recent, u) >= SpamClaims;
    }

    /** `is_on_cooldown`: an expired row is deleted; a database error reads as no cooldown. */
    method IsOnCooldown(u: int, now: int, dbOk: bool) returns (left: Option<int>)
      requires Valid()
      modifies this
      ensures Valid() && drops == old(drops) && logs == old(logs) && recent == old(recent) && locks == old(locks)
      ensures left == if dbOk then CooldownLeft(old(cooldowns), u, now) else None
      ensures cooldowns == CooldownChecked(old(cooldowns), u, now, dbOk)
    {
      if !dbOk || u !in cooldowns {
        return None;
      }
      left := CooldownLeft(cooldowns, u, now);
      if left.None? {
        cooldowns := cooldowns - {u};
      }
    }

    /**
     * The checks of `handle_claim`, in order: the spam check, an open drop,
     * not already a winner, no cooldown. Pruning and the deletion of an
     * expired cooldown happen on the way.
     */
    method Refusal(id: DropId, u: int, now: int, cooldownDbOk: bool) returns (refusal: Option<ClaimReply>)
      requires Valid()
      modifies this
      ensures Valid() && drops == old(drops) && logs == old(logs) && locks == old(locks)
      ensures recent == Pruned(old(recent), now - SpamWindow)
      ensures cooldowns == if ReachesCooldown(old(drops), old(recent), id, u, now)
                           then CooldownChecked(old(cooldowns), u, now, cooldownDbOk) else old(cooldowns)
      ensures refusal.Some? ==> !refusal.value.Claimed?
      ensures refusal.None? <==> MayClaim(old(drops), old(cooldowns), old(recent), id, u, now, cooldownDbOk)
      ensures refusal == Some(TooManyClaims) <==> ClaimsBy(Pruned(old(recent), now - SpamWindow), u) >= SpamClaims
      ensures refusal == Some(NotActive) <==> (ClaimsBy(Pruned(old(recent), now - SpamWindow), u) < SpamClaims
                                               && (id !in old(drops) || old(drops)[id].completed))
      ensures refusal == Some(AlreadyWon) ==> id in old(drops) && u in old(drops)[id].winners
      ensures refusal.Some? && refusal.value.OnCooldown? ==>
                var r := refusal.value;
                cooldownDbOk && CooldownLeft(old(cooldowns), u, now).Some?
                && r.h * 3600 + r.m * 60 + r.s == CooldownLeft(old(cooldowns), u, now).value
    {
      var spam := IsSpam(u, now);
      if spam {
        return Some(TooManyClaims);
      }
      if id !in drops || drops[id].completed {
        return Some(NotActive);
      }
      if u in drops[id].winners {
        return Some(AlreadyWon);
      }
      var left := IsOnCooldown(u, now, cooldownDbOk);
      if left.Some? {
        var c := Clock(left.value);
        return Some(OnCooldown(c.0, c.1, c.2));
      }
      return None;
    }

    /** The writes of a successful claim. */
    method RecordWin(id: DropId, u: int, now: int)
      requires Valid() && id in drops && !drops[id].completed && u !in drops[id].winners
      modifies this
      ensures Valid()
      ensures drops == old(drops)[id := Awarded(old(drops)[id], u)]
      ensures cooldowns == old(cooldowns)[u := now] && logs == old(logs) + [ClaimLog(id, u, now)]
      ensures recent == Appended(old(recent), RecentClaim(now, u))
      ensures locks == if drops[id].completed then old(locks) - {id} else old(locks)
    {
      var d2 := Awarded(drops[id], u);
      drops := drops[id := d2];
      cooldowns := cooldowns[u := now];
      logs := logs + [ClaimLog(id, u, now)];
      recent := Appended(recent, RecentClaim(now, u));
      if d2.completed {
        locks := locks - {id};
      }
    }

    /**
     * `handle_claim`: the checks; then the member joins the winners, the
     * drop completes once the count is reached, the cooldown starts, the
     * claim is logged and remembered for the spam check, and a completed
     * drop frees its lock.
     */
    method HandleClaim(id: DropId, u: int, now: int, cooldownDbOk: bool, writeOk: bool) returns (r: ClaimReply)
      requires Valid()
      modifies this
      ensures Valid()
      ensures r.Claimed? <==> MayClaim(old(drops), old(cooldowns), old(recent), id, u, now, cooldownDbOk) && writeOk
      ensures r.Claimed? ==>
                && drops == old(drops)[id := Awarded(old(drops)[id], u)]
                && r.completed == drops[id].completed
                && cooldowns == old(cooldowns)[u := now]
                && logs == old(logs) + [ClaimLog(id, u, now)]
                && recent == Appended(Pruned(old(recent), now - SpamWindow), RecentClaim(now, u))
                && locks == if r.completed then old(locks) - {id} else old(locks) + {id}
      ensures !r.Claimed? ==> drops == old(drops) && logs == old(logs) && locks == old(locks) + {id}
                              && recent == Pruned(old(recent), now - SpamWindow)
                              && cooldowns == if ReachesCooldown(old(drops), old(recent), id, u, now)
                                              then CooldownChecked(old(cooldowns), u, now, cooldownDbOk)
                                              else old(cooldowns)
      ensures r == TooManyClaims <==> ClaimsBy(Pruned(old(recent), now - SpamWindow), u) >= SpamClaims
      ensures r == NotActive <==> (ClaimsBy(Pruned(old(recent), now - SpamWindow), u) < SpamClaims
                                   && (id !in old(drops) || old(drops)[id].completed))
      ensures r == AlreadyWon ==> id in old(drops) && u in old(drops)[id].winners
      ensures r.OnCooldown? ==> (cooldownDbOk && CooldownLeft(old(cooldowns), u, now).Some?
                                 && r.h * 3600 + r.m * 60 + r.s == CooldownLeft(old(cooldowns), u, now).value)
    {
      ghost var cooldowns0 := cooldowns;
      locks := locks + {id};
      var refusal := Refusal(id, u, now, cooldownDbOk);
      if refusal.Some? {
        return refusal.value;
      }
      if !writeOk {
        return ClaimError;
      }
      ForgetThenSet(cooldowns0, cooldowns, u, now);
      RecordWin(id, u, now);
      r := Claimed(drops[id].completed);
    }
  }

  /** Setting a key after possibly deleting it is the same as setting it. */
  lemma ForgetThenSet(m: map<int, int>, m2: map<int, int>, k: int, v: int)
    requires m2 == m || m2 == m - {k}
    ensures m2[k := v] == m[k := v]
  {
  }

  /** `is_spam`'s `popleft` loop. */
  method PopOld(s: seq<RecentClaim>, window: int) returns (r: seq<RecentClaim>)
    ensures r == Pruned(s, window)
  {
    r := s;
    while r != [] && r[0].at < window
      invariant Pruned(r, window) == Pruned(s, window)
      decreases |r|
    {
      r := r[1..];
    }
  }

  /**
   * The checks before the cooldown pass: no spam, an open drop, not yet a
   * winner. They are exactly what a member without a cooldown row must pass
   * to claim.
   */
  predicate ReachesCooldown(drops: map<DropId, Drop>, recent: seq<RecentClaim>, id: DropId, u: int, now: int)
    ensures ReachesCooldown(drops, recent, id, u, now) <==> MayClaim(drops, map[], recent, id, u, now, true)
  {
    && ClaimsBy(Pruned(recent, now - SpamWindow), u) < SpamClaims
    && id in drops && !drops[id].completed && u !in drops[id].winners
  }

  /** The cooldowns after `is_on_cooldown`: a lapsed row is deleted, and a read error changes nothing. */
  function CooldownChecked(cooldowns: map<int, int>, u: int, now: int, dbOk: bool): (r: map<int, int>)
    ensures r == cooldowns || r == cooldowns - {u}
    ensures r != cooldowns ==> dbOk && u in cooldowns && now >= cooldowns[u] + CooldownSeconds
  {
    if dbOk && u in cooldowns && CooldownLeft(cooldowns, u, now).None? then cooldowns - {u} else cooldowns
  }

  /** Everything `handle_claim` checks before it records a win. */
  predicate MayClaim(drops: map<DropId, Drop>, cooldowns: map<int, int>, recent: seq<RecentClaim>, id: DropId,
                     u: int, now: int, cooldownDbOk: bool)
  {
    && ClaimsBy(Pruned(recent, now - SpamWindow), u) < SpamClaims
    && id in drops && !drops[id].completed && u !in drops[id].winners
    && (!cooldownDbOk || CooldownLeft(cooldowns, u, now).None?)
  }

  /** The drop after a win: one more distinct winner, completed once all are in. */
  function Awarded(d: Drop, u: int): (r: Drop)
    ensures r.winners == d.winners + [u] && r.winnerCount == d.winnerCount
    ensures DropOk(d) && !d.completed && u !in d.winners ==>
              DropOk(r) && (r.completed <==> |d.winners| == d.winnerCount - 1)
  {
    var w := d.winners + [u];
    d.(winners := w, completed := |w| >= d.winnerCount)
  }

  /** A drop of `k` winners goes to its first `k` distinct claimers, in claim order. */
  lemma {:induction false} WinnersInClaimOrder(d: Drop, claimers: seq<int>)
    requires DropOk(d) && d.winners == [] && NoDup(claimers) && |claimers| <= d.winnerCount
    ensures DropOk(AwardAll(d, claimers)) && AwardAll(d, claimers).winners == claimers
    ensures AwardAll(d, claimers).winnerCount == d.winnerCount
    ensures AwardAll(d, claimers).completed <==> |claimers| == d.winnerCount
  {
    if claimers != [] {
      var init := claimers[..|claimers| - 1];
      var last := claimers[|claimers| - 1];
      assert NoDup(init);
      assert last !in init by {
        forall k | 0 <= k < |init| ensures init[k] != last {
          assert init[k] == claimers[k];
        }
      }
      WinnersInClaimOrder(d, init);
      var before := AwardAll(d, init);
      assert AwardAll(d, claimers) == Awarded(before, last);
      assert |before.winners| == |claimers| - 1;
      assert !before.completed;

    }
  }

  /** Successive wins of `claimers`. */
  function AwardAll(d: Drop, claimers: seq<int>): Drop
  {
    if claimers == [] then d else Awarded(AwardAll(d, claimers[..|claimers| - 1]), claimers[|claimers| - 1])
  }
}
