/**
 * The matchmaking cog: members wait in a per-guild queue, a periodic pass
 * picks the first acceptable pair in priority order, a skipped pair is
 * blocked for a day, and every room gets the next number of its guild.
 * Role lookups go through a cache bounded by age and by size.
 */
module Matchmaking {
  import opened Common

  const SkipBlockMinutes: int := 1440
  const MaxDbCandidates: nat := 2000
  const ScanWindow: nat := 200
  /** Attempts of `enqueue`, `dequeue_pair` and `block_pair`. */
  const MaxRetries: nat := 3
  /** The bonus, in minutes of waiting, of a member who skipped in the last five minutes. */
  const SkipBonus: int := 120
  const SkipBonusWindow: int := 300
  const RecentMatchWindow: int := 24 * 60 * 60

  // ---------------------------------------------------------------------
  // The role cache
  // ---------------------------------------------------------------------

  /** `MemberRoleCache`: user id to (time cached, role ids), with `order` listing ids oldest first. */
  class RoleCache {
    const maxSize: nat
    const ttl: int
    var cache: map<int, (int, set<int>)>
    var order: seq<int>

    /** Every cached id is listed in `order`, which never outgrows `maxSize`. */
    ghost predicate Valid()
      reads this
    {
      |order| <= maxSize && forall k :: k in cache ==> k in order
    }

    constructor (maxSize0: nat, ttl0: int)
      ensures Valid() && maxSize == maxSize0 && ttl == ttl0 && cache == map[] && order == []
    {
      maxSize := maxSize0;
      ttl := ttl0;
      cache := map[];
      order := [];
    }

    /** A cached entry answers only while it is at most `ttl` seconds old. */
    predicate Hit(user: int, now: int)
      reads this
    {
      user in cache && now - cache[user].0 <= ttl
    }

    /**
     * `get_roles`: a hit moves the id to the end of `order`; a miss uses
     * the member lookup `fetched`, caches a found role set and evicts the
     * oldest listed id once `order` is longer than `maxSize`.
     */
    method GetRoles(user: int, now: int, fetched: Option<set<int>>) returns (r: Option<set<int>>)
      requires Valid()
      modifies this
      ensures Valid()
      ensures old(Hit(user, now)) ==> r == Some(old(cache)[user].1) && cache == old(cache)
                                      && order == RemoveFirst(old(order), user) + [user]
      ensures !old(Hit(user, now)) ==> r == fetched
      ensures !old(Hit(user, now)) && fetched.None? ==> cache == old(cache) && order == old(order)
      ensures !old(Hit(user, now)) && fetched.Some? ==>
                (cache, order) == Stored(old(cache), old(order), user, now, fetched.value, maxSize)
    {
      if user in cache && now - cache[user].0 <= ttl {
        RemoveFirstEffect(order, user);
        var moved := RemoveFirst(order, user) + [user];
        forall k | k in cache ensures k in moved {
          assert k in order;
        }
        order := moved;
        return Some(cache[user].1);
      }
      if fetched.None? {
        return None;
      }
      var c := cache[user := (now, fetched.value)];
      var o := order + [user];
      forall k | k in c ensures k in o {
        if k != user {
          assert k in cache;
        }
      }
      if |o| > maxSize {
        var oldest := o[0];
        assert o == [oldest] + o[1..];
        cache := map k | k in c && k != oldest :: c[k];
        order := o[1..];
      } else {
        cache, order := c, o;
      }
      r := fetched;
    }

    /** At most `maxSize` members are ever cached. */
    lemma CacheBounded()
      requires Valid()
      ensures |cache.Keys| <= maxSize
    {
      forall k | k in cache.Keys ensures k in (set x | x in order) {
        assert k in cache;
      }
      SubsetCard(cache.Keys, set x | x in order);
      CardAtMostLength(order);
    }
  }

  /** Python's `list.remove`, which removes the first occurrence and ignores a missing value. */
  function RemoveFirst(s: seq<int>, x: int): seq<int>
  {
    if s == [] then [] else if s[0] == x then s[1..] else [s[0]] + RemoveFirst(s[1..], x)
  }

  lemma {:induction false} RemoveFirstEffect(s: seq<int>, x: int)
    ensures x in s ==> |RemoveFirst(s, x)| == |s| - 1
    ensures x !in s ==> RemoveFirst(s, x) == s
    ensures forall y :: y in s && y != x ==> y in RemoveFirst(s, x)
  {
    if s != [] && s[0] != x {
      RemoveFirstEffect(s[1..], x);
    }
  }

  /** The state after a miss whose lookup found `roles`. */
  function Stored(cache: map<int, (int, set<int>)>, order: seq<int>, user: int, now: int, roles: set<int>,
                  maxSize: nat): (r: (map<int, (int, set<int>)>, seq<int>))
  {
    var o := order + [user];
    var c := cache[user := (now, roles)];
    if |o| > maxSize then (map k | k in c && k != o[0] :: c[k], o[1..]) else (c, o)
  }

  /** Refreshing an expired entry appends its id again, so `order` lists it twice while there is room. */
  lemma ExpiredRefreshDuplicates(cache: map<int, (int, set<int>)>, order: seq<int>, user: int, now: int,
                                 roles: set<int>, maxSize: nat)
    requires user in order && |order| < maxSize
    ensures var o := Stored(cache, order, user, now, roles, maxSize).1;
            exists i, j :: 0 <= i < j < |o| && o[i] == user && o[j] == user
  {
    var o := Stored(cache, order, user, now, roles, maxSize).1;
    var i :| 0 <= i < |order| && order[i] == user;
    assert o[i] == user && o[|order|] == user;
  }

  /**
   * When the cache is full and the expired id being refreshed is the oldest
   * listed, the eviction drops the entry just stored; its later copy stays listed.
   */
  lemma RefreshOfOldestEvicted(cache: map<int, (int, set<int>)>, order: seq<int>, user: int, now: int,
                               roles: set<int>, maxSize: nat)
    requires |order| == maxSize && order != [] && order[0] == user
    ensures user !in Stored(cache, order, user, now, roles, maxSize).0
    ensures user in Stored(cache, order, user, now, roles, maxSize).1
  {
    var o := order + [user];
    assert o[1..][|o| - 2] == user;
  }

  // ---------------------------------------------------------------------
  // The queue and its order
  // ---------------------------------------------------------------------

  /** A row of `waiting_queue`. */
  datatype QueueRow = QueueRow(guildId: int, userId: int, enqueuedAt: int, priority: int)

  /** The sort key `(-priority_score, enqueued_at)`: `a` may come before `b`. */
  predicate Before(a: QueueRow, b: QueueRow)
  {
    a.priority > b.priority || (a.priority == b.priority && a.enqueuedAt <= b.enqueuedAt)
  }

  predicate SortedByKey(s: seq<QueueRow>)
  {
    forall i, j :: 0 <= i < j < |s| ==> Before(s[i], s[j])
  }

  /** Insert `x` ahead of the first element it may precede; an earlier row stays ahead of equal ones. */
  function Insert(x: QueueRow, s: seq<QueueRow>): (r: seq<QueueRow>)
    ensures |r| == |s| + 1 && multiset(r) == multiset(s) + multiset{x}
  {
    if s == [] then [x]
    else if Before(x, s[0]) then [x] + s
    else
      var rest := Insert(x, s[1..]);
      assert s == [s[0]] + s[1..];
      [s[0]] + rest
  }

  lemma {:induction false} InsertSorted(x: QueueRow, s: seq<QueueRow>)
    requires SortedByKey(s)
    ensures SortedByKey(Insert(x, s))
  {
    if s != [] && !Before(x, s[0]) {
      InsertSorted(x, s[1..]);
      var rest := Insert(x, s[1..]);
      forall k | 0 <= k < |rest| ensures Before(s[0], rest[k]) {
        assert rest[k] in multiset(rest);
        assert rest[k] in multiset(s[1..]) || rest[k] == x;
        if rest[k] != x {
          var m :| 0 <= m < |s[1..]| && s[1..][m] == rest[k];
          assert s[1 + m] == rest[k];
        }
      }
    }
  }

  /** Python's stable `sort` by that key. */
  function SortQueue(s: seq<QueueRow>): (r: seq<QueueRow>)
    ensures |r| == |s| && multiset(r) == multiset(s)
  {
    if s == [] then []
    else
      assert s == [s[0]] + s[1..];
      Insert(s[0], SortQueue(s[1..]))
  }

  lemma {:induction false} SortQueueSorted(s: seq<QueueRow>)
    ensures SortedByKey(SortQueue(s))
  {
    if s != [] {
      SortQueueSorted(s[1..]);
      InsertSorted(s[0], SortQueue(s[1..]));
    }
  }

  predicate InGuild(g: int, r: QueueRow) { r.guildId == g }

  function IsUser(u: int): QueueRow -> bool { (r: QueueRow) => r.userId == u }

  /** The 1-based place of the member's first row after sorting, or 0 when absent. */
  function Position(rows: seq<QueueRow>, u: int): (p: nat)
    ensures p <= |rows|
    ensures p > 0 ==> SortQueue(rows)[p - 1].userId == u && forall k :: 0 <= k < p - 1 ==> SortQueue(rows)[k].userId != u
    ensures p == 0 ==> forall k :: 0 <= k < |rows| ==> SortQueue(rows)[k].userId != u
  {
    match FirstWhere(SortQueue(rows), IsUser(u))
    case None => 0
    case Some(i) => i + 1
  }

  /** The place is 0 exactly when the member has no row. */
  lemma PositionZeroIff(rows: seq<QueueRow>, u: int)
    ensures Position(rows, u) == 0 <==> forall i :: 0 <= i < |rows| ==> rows[i].userId != u
  {
    var sorted := SortQueue(rows);
    if Position(rows, u) == 0 {
      forall i | 0 <= i < |rows| ensures rows[i].userId != u {
        assert rows[i] in multiset(sorted);
        var k :| 0 <= k < |sorted| && sorted[k] == rows[i];
      }
    } else {
      var x := sorted[Position(rows, u) - 1];
      assert x in multiset(rows);
      var i :| 0 <= i < |rows| && rows[i] == x;
    }
  }

  /** `math.ceil(n / 2)`. */
  function CeilHalf(n: nat): (h: nat)
    ensures n <= 2 * h < n + 2
  {
    (n + 1) / 2
  }

  /**
   * `get_position_and_eta` over the guild's rows: the place, the number
   * waiting, and 20 seconds for every pair of members ahead, at least one.
   */
  function PositionAndEta(rows: seq<QueueRow>, u: int): (r: (nat, nat, nat))
    ensures rows == [] ==> r == (0, 0, 0)
    ensures r.0 == Position(rows, u) && r.1 == |rows|
    ensures r.0 == 0 ==> r.2 == 0
    ensures r.0 > 0 ==> r.2 == 20 * Max(1, CeilHalf(r.0 - 1))
  {
    if rows == [] then (0, 0, 0)
    else
      var p := Position(rows, u);
      if p == 0 then (0, |rows|, 0) else (p, |rows|, Max(1, CeilHalf(p - 1)) * 20)
  }

  /** A place further back never gets a shorter wait, and every wait is at least 20 seconds. */
  lemma EtaMonotone(rows: seq<QueueRow>, u: int, v: int)
    requires 0 < Position(rows, u) <= Position(rows, v)
    ensures 20 <= PositionAndEta(rows, u).2 <= PositionAndEta(rows, v).2
  {
    var p, q := Position(rows, u), Position(rows, v);
    assert CeilHalf(p - 1) <= CeilHalf(q - 1);
    assert Max(1, CeilHalf(p - 1)) <= Max(1, CeilHalf(q - 1));
  }

  /** Every row with a strictly higher priority than the member's is placed ahead of it. */
  lemma HigherPriorityAhead(rows: seq<QueueRow>, u: int, x: QueueRow)
    requires Position(rows, u) > 0 && x in rows
    requires x.priority > SortQueue(rows)[Position(rows, u) - 1].priority
    ensures exists k :: 0 <= k < Position(rows, u) - 1 && SortQueue(rows)[k] == x
  {
    var sorted := SortQueue(rows);
    SortQueueSorted(rows);
    assert x in multiset(rows);
    assert x in sorted;
    SortedHigherAhead(sorted, Position(rows, u) - 1, x);
  }

  lemma SortedHigherAhead(s: seq<QueueRow>, p: nat, x: QueueRow)
    requires SortedByKey(s) && p < |s| && x in s && x.priority > s[p].priority
    ensures exists k :: 0 <= k < p && s[k] == x
  {
    var k :| 0 <= k < |s| && s[k] == x;
    assert k != p;
  }

  // ---------------------------------------------------------------------
  // Pair search
  // ---------------------------------------------------------------------

  /** A row of `match_skips`. */
  datatype Skip = Skip(guildId: int, userId: int, threadId: int, skippedAt: int)

  /** A row of `matches`. */
  datatype Match = Match(guildId: int, user1: int, user2: int, threadId: int, createdAt: int, open: bool)

  predicate SkippedRecently(skips: seq<Skip>, g: int, u: int, now: int)
  {
    exists s :: s in skips && s.guildId == g && s.userId == u && s.skippedAt > now - SkipBonusWindow
  }

  /** Whole minutes waited, with the skip bonus. */
  function Score(r: QueueRow, skips: seq<Skip>, now: int): (s: int)
    ensures s >= 0
    ensures var bonus := if SkippedRecently(skips, r.guildId, r.userId, now) then SkipBonus else 0;
            (s - bonus) * 60 <= Max(0, now - r.enqueuedAt) < (s - bonus) * 60 + 60
  {
    var base := Max(0, now - r.enqueuedAt) / 60;
    if SkippedRecently(skips, r.guildId, r.userId, now) then base + SkipBonus else base
  }

  function Scored(rows: seq<QueueRow>, skips: seq<Skip>, now: int): (r: seq<QueueRow>)
    ensures |r| == |rows|
    ensures forall i :: 0 <= i < |rows| ==> r[i] == rows[i].(priority := Score(rows[i], skips, now))
  {
    seq(|rows|, i requires 0 <= i < |rows| => rows[i].(priority := Score(rows[i], skips, now)))
  }

  /** A member of an open match created in the last day whose thread nobody skipped in that time. */
  predicate RecentlyMatched(matches: seq<Match>, skips: seq<Skip>, g: int, u: int, now: int)
  {
    exists m :: m in matches && m.guildId == g && m.createdAt > now - RecentMatchWindow && m.open
                && (m.user1 == u || m.user2 == u)
                && !(exists s :: s in skips && s.guildId == g && s.threadId == m.threadId
                                 && s.skippedAt > now - RecentMatchWindow)
  }

  /** The row filter of the recent-match query: the guild's open matches of the last day with no skip of their thread since. */
  predicate RecentOpen(m: Match, skips: seq<Skip>, g: int, now: int)
  {
    m.guildId == g && m.createdAt > now - RecentMatchWindow && m.open
    && !(exists s :: s in skips && s.guildId == g && s.threadId == m.threadId && s.skippedAt > now - RecentMatchWindow)
  }

  /** Both members of every row, as the loop over the query's rows collects them. */
  method CollectMatched(rows: seq<Match>) returns (users: set<int>)
    ensures forall u :: u in users <==> exists m :: m in rows && (m.user1 == u || m.user2 == u)
  {
    users := {};
    var k := 0;
    while k < |rows|
      invariant k <= |rows|
      invariant forall u :: u in users <==> exists m :: m in rows[..k] && (m.user1 == u || m.user2 == u)
    {
      assert rows[..k + 1] == rows[..k] + [rows[k]];
      users := users + {rows[k].user1, rows[k].user2};
      k := k + 1;
    }
    assert rows[..k] == rows;
  }

  /** The members the scan treats as recently matched. */
  function RecentlyMatchedIds(matches: seq<Match>, skips: seq<Skip>, g: int, now: int): set<int>
  {
    (set m | m in matches && RecentOpen(m, skips, g, now) :: m.user1) + (set m | m in matches && RecentOpen(m, skips, g, now) :: m.user2)
  }

  /** The members of the filtered rows are the recently matched ones. */
  lemma RowsGiveRecent(matches: seq<Match>, skips: seq<Skip>, g: int, now: int, rows: seq<Match>, users: set<int>)
    requires forall m :: m in rows <==> m in matches && RecentOpen(m, skips, g, now)
    requires forall u :: u in users <==> exists m :: m in rows && (m.user1 == u || m.user2 == u)
    ensures users == RecentlyMatchedIds(matches, skips, g, now)
  {
    forall u | u in users ensures u in RecentlyMatchedIds(matches, skips, g, now) {
      var m :| m in rows && (m.user1 == u || m.user2 == u);
      assert m in matches && RecentOpen(m, skips, g, now);
    }
    forall u | u in RecentlyMatchedIds(matches, skips, g, now) ensures u in users {
      var m :| m in matches && RecentOpen(m, skips, g, now) && (m.user1 == u || m.user2 == u);
      assert m in rows;
    }
  }

  /** The collected set holds exactly the recently matched members. */
  lemma RecentlyMatchedIdsIff(matches: seq<Match>, skips: seq<Skip>, g: int, now: int)
    ensures forall u :: u in RecentlyMatchedIds(matches, skips, g, now) <==> RecentlyMatched(matches, skips, g, u, now)
  {
    forall u | RecentlyMatched(matches, skips, g, u, now) ensures u in RecentlyMatchedIds(matches, skips, g, now) {
      var m :| m in matches && m.guildId == g && m.createdAt > now - RecentMatchWindow && m.open
               && (m.user1 == u || m.user2 == u)
               && !(exists s :: s in skips && s.guildId == g && s.threadId == m.threadId
                                && s.skippedAt > now - RecentMatchWindow);
      assert RecentOpen(m, skips, g, now);
    }
  }

  function SortedPair(a: int, b: int): (int, int) { if a <= b then (a, b) else (b, a) }

  predicate HasRoles(roles: Option<set<int>>) { roles.Some? && roles.value != {} }

  /** What `dequeue_pair` knows about the guild while it scans. */
  datatype ScanFacts = ScanFacts(blocked: set<(int, int)>, matched: set<int>, rolesOf: int -> Option<set<int>>)

  /** The pair is not blocked, neither member is in a recent match, and both have roles. */
  predicate Acceptable(f: ScanFacts, a: int, b: int)
  {
    SortedPair(a, b) !in f.blocked && a !in f.matched && b !in f.matched && HasRoles(f.rolesOf(a)) && HasRoles(f.rolesOf(b))
  }

  /** Blocks are stored for the sorted pair, so acceptability does not depend on the order. */
  lemma AcceptableSymmetric(f: ScanFacts, a: int, b: int)
    ensures Acceptable(f, a, b) <==> Acceptable(f, b, a)
  {
    assert SortedPair(a, b) == SortedPair(b, a);
  }

  /** `u1` among the first 200 candidates, `u2` among the 200 after it. */
  predicate InWindow(n: nat, i: int, j: int)
  {
    0 <= i < Min(n, ScanWindow) && i < j < Min(n, i + 1 + ScanWindow)
  }

  predicate EarlierPair(i': int, j': int, i: int, j: int)
  {
    i' < i || (i' == i && j' < j)
  }

  predicate PairRejected(c: seq<QueueRow>, f: ScanFacts, i: int, j: int)
    requires 0 <= i < |c| && 0 <= j < |c|
  {
    !Acceptable(f, c[i].userId, c[j].userId)
  }

  /** No pair of the scan window is acceptable. */
  ghost predicate NoPair(c: seq<QueueRow>, f: ScanFacts)
  {
    forall i, j :: InWindow(|c|, i, j) ==> PairRejected(c, f, i, j)
  }

  /** The nested scan of `dequeue_pair`: the first acceptable pair in scan order. */
  method ScanForPair(c: seq<QueueRow>, f: ScanFacts) returns (r: Option<(nat, nat)>)
    ensures r.Some? ==> InWindow(|c|, r.value.0, r.value.1) && Acceptable(f, c[r.value.0].userId, c[r.value.1].userId)
                        && forall i, j :: InWindow(|c|, i, j) && EarlierPair(i, j, r.value.0, r.value.1) ==> PairRejected(c, f, i, j)
    ensures r.None? <==> NoPair(c, f)
  {
    var n := Min(|c|, ScanWindow);
    var i := 0;
    while i < n
      invariant i <= n
      invariant forall i', j' :: InWindow(|c|, i', j') && i' < i ==> PairRejected(c, f, i', j')
    {
      var m := Min(|c|, i + 1 + ScanWindow);
      var j := i + 1;
      while j < m
        invariant i + 1 <= j <= m || (j == i + 1 && m <= i + 1)
        invariant forall i', j' :: InWindow(|c|, i', j') && i' < i ==> PairRejected(c, f, i', j')
        invariant forall j' :: i < j' < j && j' < m ==> PairRejected(c, f, i, j')
      {
        if Acceptable(f, c[i].userId, c[j].userId) {
          return Some((i, j));
        }
        j := j + 1;
      }
      i := i + 1;
    }
    return None;
  }

  // ---------------------------------------------------------------------
  // The double-skip rule
  // ---------------------------------------------------------------------

  /** `match_meta` of a room: its two members and who pressed Skip. */
  datatype RoomMeta = RoomMeta(pairs: seq<int>, skipVotes: set<int>)

  /** `_get_other_id`: the first member of the room other than `user`. */
  function OtherId(meta: map<int, RoomMeta>, thread: int, user: int): (r: Option<int>)
    ensures r.Some? ==> thread in meta && r.value in meta[thread].pairs && r.value != user
    ensures r.None? ==> thread !in meta || forall k :: 0 <= k < |meta[thread].pairs| ==> meta[thread].pairs[k] == user
  {
    if thread !in meta then None
    else match FirstWhere(meta[thread].pairs, (x: int) => x != user)
      case None => None
      case Some(k) => Some(meta[thread].pairs[k])
  }

  /** A Skip vote: it is recorded, and the room closes once the other member has voted too. */
  function SkipVote(m: RoomMeta, user: int): (r: (RoomMeta, bool))
    ensures r.0.skipVotes == m.skipVotes + {user} && r.0.pairs == m.pairs
    ensures r.1 ==> exists o :: o in m.pairs && o != user && o != 0 && o in m.skipVotes
  {
    var votes := m.skipVotes + {user};
    var other := FirstWhere(m.pairs, (x: int) => x != user);
    (m.(skipVotes := votes), other.Some? && m.pairs[other.value] != 0 && m.pairs[other.value] in votes)
  }

  /** A room of two closes on the second member's vote, never on the first. */
  lemma DoubleSkipCloses(a: int, b: int)
    requires a != b && a != 0 && b != 0
    ensures !SkipVote(RoomMeta([a, b], {}), a).1
    ensures SkipVote(SkipVote(RoomMeta([a, b], {}), a).0, b).1
  {
    var first := SkipVote(RoomMeta([a, b], {}), a).0;
    assert first.skipVotes == {a};
    assert FirstWhere([a, b], (x: int) => x != b) == Some(0);
  }

  // ---------------------------------------------------------------------
  // The tables
  // ---------------------------------------------------------------------

  datatype EnqueueResult = Enqueued | InvalidGuild | InvalidUser | AlreadyQueued | EnqueueFailed

  predicate Queued(q: seq<QueueRow>, g: int, u: int)
  {
    exists i :: 0 <= i < |q| && q[i].guildId == g && q[i].userId == u
  }

  function IsKey(g: int, u: int): QueueRow -> bool { (r: QueueRow) => r.guildId == g && r.userId == u }

  /** `INSERT … ON CONFLICT(guild_id, user_id) DO UPDATE`. */
  function Upsert(q: seq<QueueRow>, row: QueueRow): (r: seq<QueueRow>)
    ensures Queued(r, row.guildId, row.userId) && row in r
    ensures forall i :: 0 <= i < |q| && !IsKey(row.guildId, row.userId)(q[i]) ==> q[i] in r
    ensures forall x :: x in r ==> x == row || x in q
  {
    match FirstWhere(q, IsKey(row.guildId, row.userId))
    case None =>
      assert (q + [row])[|q|] == row;
      assert forall i :: 0 <= i < |q| ==> (q + [row])[i] == q[i];
      q + [row]
    case Some(i) =>
      assert q[i := row][i] == row;
      assert forall j :: 0 <= j < |q| && j != i ==> q[i := row][j] == q[j];
      q[i := row]
  }

  predicate DistinctKeys(a: QueueRow, b: QueueRow) { a.guildId != b.guildId || a.userId != b.userId }

  predicate QueueOk(q: seq<QueueRow>)
  {
    forall i, j {:trigger DistinctKeys(q[i], q[j])} :: 0 <= i < j < |q| ==> DistinctKeys(q[i], q[j])
  }

  lemma UpsertOk(q: seq<QueueRow>, row: QueueRow)
    requires QueueOk(q)
    ensures QueueOk(Upsert(q, row))
  {
    var r := Upsert(q, row);
    var f := FirstWhere(q, IsKey(row.guildId, row.userId));
    forall i, j | 0 <= i < j < |r| ensures DistinctKeys(r[i], r[j]) {
      if f.None? {
        if j < |q| {
          assert DistinctKeys(q[i], q[j]);
        } else {
          assert !IsKey(row.guildId, row.userId)(q[i]);
        }
      } else {
        var k := f.value;
        if i != k && j != k {
          assert DistinctKeys(q[i], q[j]);
        } else if i == k {
          assert DistinctKeys(q[k], q[j]);
        } else {
          assert DistinctKeys(q[i], q[k]);
        }
      }
    }
  }

  /** `guild_config.next_room_number`: missing rows and a zero read as 1. */
  function RoomNumber(rooms: map<int, int>, g: int): int
  {
    if g in rooms && rooms[g] != 0 then rooms[g] else 1
  }

  /** The `waiting_queue`, `recent_blocks` and room-counter tables. */
  class MatchDb {
    var queue: seq<QueueRow>
    /** (guild, lower id, higher id) to `blocked_until`. */
    var blocks: map<(int, int, int), int>
    var rooms: map<int, int>

    ghost predicate Valid()
      reads this
    {
      QueueOk(queue)
    }

    constructor ()
      ensures Valid() && queue == [] && blocks == map[] && rooms == map[]
    {
      queue := [];
      blocks := map[];
      rooms := map[];
    }

    /**
     * `enqueue`: positive ids only; a member found in the queue is refused
     * (a failed lookup lets the insert go ahead); then up to three upsert
     * attempts with priority 0.
     */
    method Enqueue(g: int, u: int, now: int, lookupOk: bool, attemptOk: nat -> bool) returns (r: EnqueueResult)
      requires Valid()
      modifies this
      ensures Valid() && blocks == old(blocks) && rooms == old(rooms)
      ensures g <= 0 ==> r == InvalidGuild
      ensures g > 0 && u <= 0 ==> r == InvalidUser
      ensures g > 0 && u > 0 && lookupOk && Queued(old(queue), g, u) ==> r == AlreadyQueued
      ensures r == Enqueued <==> g > 0 && u > 0 && !(lookupOk && Queued(old(queue), g, u))
                                 && exists k :: 0 <= k < MaxRetries && attemptOk(k)
      ensures r == Enqueued ==> queue == Upsert(old(queue), QueueRow(g, u, now, 0))
      ensures r != Enqueued ==> queue == old(queue)
    {
      if g <= 0 {
        return InvalidGuild;
      }
      if u <= 0 {
        return InvalidUser;
      }
      if lookupOk && FirstWhere(queue, IsKey(g, u)).Some? {
        return AlreadyQueued;
      }
      forall i | 0 <= i < |queue| ensures lookupOk ==> !(queue[i].guildId == g && queue[i].userId == u) {
        assert lookupOk ==> !IsKey(g, u)(queue[i]);
      }
      var attempt := FirstSuccess(MaxRetries, attemptOk);
      if attempt.None? {
        return EnqueueFailed;
      }
      UpsertOk(queue, QueueRow(g, u, now, 0));
      queue := Upsert(queue, QueueRow(g, u, now, 0));
      r := Enqueued;
    }

    /** The guild's queue as `get_position_and_eta` reads it. */
    function GuildRows(g: int): seq<QueueRow>
      reads this
    {
      Filter(queue, (r: QueueRow) => InGuild(g, r))
    }

    /** `block_pair`: the ids are stored sorted; re-blocking overwrites the time; three attempts. */
    method BlockPair(g: int, a: int, b: int, now: int, minutes: int, attemptOk: nat -> bool) returns (ok: bool)
      requires Valid()
      modifies this
      ensures Valid() && queue == old(queue) && rooms == old(rooms)
      ensures ok <==> exists k :: 0 <= k < MaxRetries && attemptOk(k)
      ensures blocks == if ok then old(blocks)[(g, SortedPair(a, b).0, SortedPair(a, b).1) := now + minutes * 60]
                        else old(blocks)
    {
      var attempt := FirstSuccess(MaxRetries, attemptOk);
      if attempt.None? {
        return false;
      }
      var p := SortedPair(a, b);
      blocks := blocks[(g, p.0, p.1) := now + minutes * 60];
      ok := true;
    }

    /** `consume_room_number`: the stored number, with the next one written back. */
    method ConsumeRoomNumber(g: int) returns (n: int)
      requires Valid()
      modifies this
      ensures Valid() && queue == old(queue) && blocks == old(blocks)
      ensures n == RoomNumber(old(rooms), g) && rooms == old(rooms)[g := n + 1]
    {
      n := RoomNumber(rooms, g);
      rooms := rooms[g := n + 1];
    }

    /**
     * `dequeue_pair` over the candidates the query returned (oldest first,
     * at most 2000): with at least two, expired blocks of the guild are
     * deleted, the candidates are scored and sorted, and the scan runs over
     * the blocks still in force.
     */
    method DequeuePair(g: int, fetched: seq<QueueRow>, now: int, skips: seq<Skip>, matches: seq<Match>,
                       rolesOf: int -> Option<set<int>>, dbOk: bool) returns (r: Option<(QueueRow, QueueRow)>)
      requires Valid()
      modifies this
      ensures Valid() && queue == old(queue) && rooms == old(rooms)
      ensures !dbOk || |fetched| < 2 ==> r.None? && blocks == old(blocks)
      ensures dbOk && |fetched| >= 2 ==>
                && blocks == LiveBlocks(old(blocks), g, now)
                && var c := SortQueue(Scored(fetched, skips, now));
                   var f := ScanFacts(BlockedPairs(blocks, g, now), RecentlyMatchedIds(matches, skips, g, now), rolesOf);
                   && (r.None? <==> NoPair(c, f))
                   && (r.Some? ==> exists i, j :: InWindow(|c|, i, j) && r.value == (c[i], c[j])
                                                  && Acceptable(f, c[i].userId, c[j].userId))
      ensures r.Some? ==> !RecentlyMatched(matches, skips, g, r.value.0.userId, now)
                          && !RecentlyMatched(matches, skips, g, r.value.1.userId, now)
    {
      if !dbOk || |fetched| < 2 {
        return None;
      }
      var c := SortQueue(Scored(fetched, skips, now));
      blocks := LiveBlocks(blocks, g, now);
      var rows := Filter(matches, (m: Match) => RecentOpen(m, skips, g, now));
      var matched := CollectMatched(rows);
      RecentlyMatchedIdsIff(matches, skips, g, now);
      RowsGiveRecent(matches, skips, g, now, rows, matched);
      var f := ScanFacts(BlockedPairs(blocks, g, now), matched, rolesOf);
      var pair := ScanForPair(c, f);
      if pair.None? {
        return None;
      }
      assert !PairRejected(c, f, pair.value.0, pair.value.1);
      r := Some((c[pair.value.0], c[pair.value.1]));
    }
  }

  /** `DELETE FROM recent_blocks WHERE guild_id=? AND blocked_until<=?`. */
  function LiveBlocks(blocks: map<(int, int, int), int>, g: int, now: int): (r: map<(int, int, int), int>)
    ensures forall k :: k in r <==> k in blocks && (k.0 != g || blocks[k] > now)
    ensures forall k :: k in r ==> r[k] == blocks[k]
  {
    map k | k in blocks && (k.0 != g || blocks[k] > now) :: blocks[k]
  }

  /** The guild's pairs whose block is still in force. */
  function BlockedPairs(blocks: map<(int, int, int), int>, g: int, now: int): set<(int, int)>
  {
    set k | k in blocks && k.0 == g && blocks[k] > now :: (k.1, k.2)
  }

  /** Blocking (a, b) and blocking (b, a) store the same row. */
  lemma BlockSymmetric(blocks: map<(int, int, int), int>, g: int, a: int, b: int, until: int)
    ensures var p := SortedPair(a, b);
            var q := SortedPair(b, a);
            blocks[(g, p.0, p.1) := until] == blocks[(g, q.0, q.1) := until] && p.0 <= p.1
  {
  }

  /** A block written at `now` keeps the pair apart until it lapses. */
  lemma BlockedPairRejected(blocks: map<(int, int, int), int>, g: int, a: int, b: int, at: int, minutes: int, now: int,
                            matched: set<int>, rolesOf: int -> Option<set<int>>)
    requires minutes > 0 && at <= now < at + minutes * 60
    ensures var p := SortedPair(a, b);
            var blocks2 := blocks[(g, p.0, p.1) := at + minutes * 60];
            !Acceptable(ScanFacts(BlockedPairs(LiveBlocks(blocks2, g, now), g, now), matched, rolesOf), b, a)
  {
    var p := SortedPair(a, b);
    var blocks2 := blocks[(g, p.0, p.1) := at + minutes * 60];
    assert (g, p.0, p.1) in LiveBlocks(blocks2, g, now);
    assert SortedPair(b, a) == p;
    assert p in BlockedPairs(LiveBlocks(blocks2, g, now), g, now);
  }

  /** From the default of 1 on, room numbers are positive and handed out one after another. */
  lemma RoomNumbersConsecutive(rooms: map<int, int>, g: int)
    requires forall k :: k in rooms ==> rooms[k] >= 1
    ensures var n := RoomNumber(rooms, g);
            var rooms2 := rooms[g := n + 1];
            n >= 1 && RoomNumber(rooms2, g) == n + 1 && forall k :: k in rooms2 ==> rooms2[k] >= 1
  {
  }
}
