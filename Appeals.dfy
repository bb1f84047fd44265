/**
 * The appeal system: a muted member appeals one of their active cases,
 * moderators approve or deny each appeal once, and appeals nobody
 * reviewed expire after seven days. It shares the `guild_configs` and
 * `mutes` collections with the quarantine cog, so the operations that
 * unmute act on a `MuteDb`.
 */
module Appeals {
  import opened Common
  import opened Quarantine

  /** `APPEAL_COOLDOWN_HOURS`, in seconds. */
  const CooldownSeconds: int := 24 * 3600
  /** `APPEAL_REVIEW_TIMEOUT_DAYS`, in seconds. */
  const ReviewTimeoutSeconds: int := 7 * 86400

  datatype AppealStatus = Pending | Approved | Denied | Expired

  /** The two review buttons. */
  datatype Decision = Approve | Deny

  function StatusOf(d: Decision): AppealStatus { if d == Approve then Approved else Denied }

  /** A document of the `appeals` collection. */
  datatype Appeal = Appeal(appealId: nat, guildId: int, userId: int, caseId: nat, reason: string,
                           info: Option<string>, status: AppealStatus, createdAt: int, updatedAt: int,
                           reviewedBy: Option<int>, reviewedAt: Option<int>)

  // ---------------------------------------------------------------------
  // Invariant
  // ---------------------------------------------------------------------

  /** An appeal number was handed out by its guild's counter. */
  predicate IdCounted(a: Appeal, counters: map<int, nat>)
  {
    a.guildId in counters && 1 <= a.appealId <= counters[a.guildId]
  }

  predicate DistinctKeys(a: Appeal, b: Appeal)
  {
    a.guildId != b.guildId || a.appealId != b.appealId
  }

  /** Exactly the reviewed appeals name their reviewer. */
  predicate ReviewRecorded(a: Appeal)
  {
    (a.status == Approved || a.status == Denied) <==> a.reviewedBy.Some?
  }

  predicate AppealsOk(appeals: seq<Appeal>, counters: map<int, nat>)
  {
    && (forall i {:trigger IdCounted(appeals[i], counters)} :: 0 <= i < |appeals| ==> IdCounted(appeals[i], counters))
    && (forall i, j {:trigger DistinctKeys(appeals[i], appeals[j])} ::
          0 <= i < j < |appeals| ==> DistinctKeys(appeals[i], appeals[j]))
    && (forall i {:trigger ReviewRecorded(appeals[i])} :: 0 <= i < |appeals| ==> ReviewRecorded(appeals[i]))
  }

  /** Appeals that are approved, denied or expired stay exactly as they are. */
  predicate SettledKept(before: seq<Appeal>, after: seq<Appeal>)
  {
    |before| <= |after| && forall i :: 0 <= i < |before| && before[i].status != Pending ==> after[i] == before[i]
  }

  // ---------------------------------------------------------------------
  // Submitting
  // ---------------------------------------------------------------------

  /** `_can_submit_appeal`'s answer; a cooldown carries the wait the message shows. */
  datatype SubmitVerdict = MaySubmit | OnCooldown(hours: int, minutes: int) | PendingExists(appealId: nat)

  /** An appeal of the member created within the cooldown. */
  function IsRecent(g: int, u: int, now: int): Appeal -> bool
  {
    (a: Appeal) => a.guildId == g && a.userId == u && a.createdAt >= now - CooldownSeconds
  }

  function IsPendingOf(g: int, u: int): Appeal -> bool
  {
    (a: Appeal) => a.guildId == g && a.userId == u && a.status == Pending
  }

  /** Whole hours, then whole minutes of the rest, as Python's `//` and `%` give them. */
  function WaitMessage(left: int): (r: (int, int))
    ensures r.0 * 3600 + r.1 * 60 <= left < r.0 * 3600 + r.1 * 60 + 60
    ensures 0 <= r.1 < 60
  {
    (left / 3600, (left % 3600) / 60)
  }

  /** `_can_submit_appeal`: no appeal in the last 24 hours and none pending. */
  function CanSubmitAppeal(appeals: seq<Appeal>, g: int, u: int, now: int): (v: SubmitVerdict)
    ensures v.MaySubmit? <==> forall i :: 0 <= i < |appeals| ==>
                                !IsRecent(g, u, now)(appeals[i]) && !IsPendingOf(g, u)(appeals[i])
    ensures v.OnCooldown? ==> exists i :: 0 <= i < |appeals| && IsRecent(g, u, now)(appeals[i])
                                          && (v.hours, v.minutes) == WaitMessage(appeals[i].createdAt + CooldownSeconds - now)
    ensures v.PendingExists? ==> (forall i :: 0 <= i < |appeals| ==> !IsRecent(g, u, now)(appeals[i]))
                                 && exists i :: 0 <= i < |appeals| && IsPendingOf(g, u)(appeals[i])
                                                && appeals[i].appealId == v.appealId
  {
    match FirstWhere(appeals, IsRecent(g, u, now))
    case Some(i) =>
      var w := WaitMessage(appeals[i].createdAt + CooldownSeconds - now);
      OnCooldown(w.0, w.1)
    case None =>
      match FirstWhere(appeals, IsPendingOf(g, u))
      case Some(j) => PendingExists(appeals[j].appealId)
      case None => MaySubmit
  }

  /** With no appeal dated in the future, the wait shown is at most 24 hours. */
  lemma CooldownBounded(appeals: seq<Appeal>, g: int, u: int, now: int)
    requires forall i :: 0 <= i < |appeals| ==> appeals[i].createdAt <= now
    ensures var v := CanSubmitAppeal(appeals, g, u, now);
            v.OnCooldown? ==> 0 <= v.hours <= 24 && (v.hours == 24 ==> v.minutes == 0)
  {
  }

  function IsCase(g: int, c: nat): MuteDoc -> bool
  {
    (d: MuteDoc) => d.guildId == g && d.caseId == c
  }

  datatype CreateRefusal = CannotSubmit(verdict: SubmitVerdict) | CaseNotFound | NotOwnCase | CaseInactive | InsertFailed

  datatype CreateReply = Created(appealId: nat) | CreateRefused(why: CreateRefusal)

  /** The checks on the case: it exists in the guild, belongs to the member and is active. */
  function CaseCheck(mutes: seq<MuteDoc>, g: int, u: int, c: nat): (r: Option<CreateRefusal>)
    ensures r.None? <==> exists i :: 0 <= i < |mutes| && IsCase(g, c)(mutes[i]) && mutes[i].userId == u && mutes[i].active
                                     && forall j :: 0 <= j < i ==> !IsCase(g, c)(mutes[j])
  {
    match FirstWhere(mutes, IsCase(g, c))
    case None => Some(CaseNotFound)
    case Some(i) =>
      if mutes[i].userId != u then Some(NotOwnCase)
      else if !mutes[i].active then Some(CaseInactive)
      else None
  }

  /** In a collection whose case numbers are unique per guild, the check is about the one document with that case. */
  lemma CaseCheckUnique(mutes: seq<MuteDoc>, counters: map<int, nat>, g: int, u: int, c: nat, i: nat)
    requires MutesOk(mutes, counters) && i < |mutes| && IsCase(g, c)(mutes[i])
    ensures CaseCheck(mutes, g, u, c).None? <==> mutes[i].userId == u && mutes[i].active
  {
    var f := FirstWhere(mutes, IsCase(g, c));
    assert f.Some?;
    assert f.value < i ==> DistinctCases(mutes[f.value], mutes[i]);
  }

  /** The document `_create_appeal` inserts. */
  function NewAppeal(id: nat, g: int, u: int, c: nat, reason: string, info: Option<string>, now: int): (a: Appeal)
    ensures a.status == Pending && a.reviewedBy.None? && a.reviewedAt.None?
    ensures a.appealId == id && a.guildId == g && a.userId == u && a.caseId == c && a.createdAt == now
  {
    Appeal(id, g, u, c, reason, info, Pending, now, now, None, None)
  }

  lemma AppendAppealOk(appeals: seq<Appeal>, counters: map<int, nat>, a: Appeal)
    requires AppealsOk(appeals, counters)
    requires a.appealId == Bumped(counters, a.guildId) && ReviewRecorded(a)
    ensures AppealsOk(appeals + [a], counters[a.guildId := a.appealId])
  {
    var s := appeals + [a];
    var c2 := counters[a.guildId := a.appealId];
    forall i | 0 <= i < |s| ensures IdCounted(s[i], c2) && ReviewRecorded(s[i]) {
      if i < |appeals| {
        assert IdCounted(appeals[i], counters) && ReviewRecorded(appeals[i]);
      }
    }
    forall i, j | 0 <= i < j < |s| ensures DistinctKeys(s[i], s[j]) {
      if j < |appeals| {
        assert DistinctKeys(appeals[i], appeals[j]);
      } else {
        assert IdCounted(appeals[i], counters);
      }
    }
  }

  lemma BumpAppealOk(appeals: seq<Appeal>, counters: map<int, nat>, g: int)
    requires AppealsOk(appeals, counters)
    ensures AppealsOk(appeals, counters[g := Bumped(counters, g)])
  {
    var c2 := counters[g := Bumped(counters, g)];
    forall i | 0 <= i < |appeals| ensures IdCounted(appeals[i], c2) {
      assert IdCounted(appeals[i], counters);
    }
  }

  // ---------------------------------------------------------------------
  // The appeal number's uniqueness
  // ---------------------------------------------------------------------

  /** The unique index on `appeal_id` alone rejects a document whose number any guild already used. */
  predicate GlobalIndexRejects(appeals: seq<Appeal>, a: Appeal)
  {
    exists i :: 0 <= i < |appeals| && appeals[i].appealId == a.appealId
  }

  /** An index on (guild, appeal number) rejects only a number the same guild already used. */
  predicate GuildIndexRejects(appeals: seq<Appeal>, a: Appeal)
  {
    exists i :: 0 <= i < |appeals| && appeals[i].guildId == a.guildId && appeals[i].appealId == a.appealId
  }

  /**
   * As written, the first appeal of a second guild gets number 1 from its
   * own counter and is refused by the global unique index.
   */
  lemma GlobalIndexBlocksSecondGuild()
    ensures var first := NewAppeal(1, 10, 100, 1, "reason", None, 0);
            var counters := map[10 := 1];
            var second := NewAppeal(Bumped(counters, 20), 20, 200, 1, "reason", None, 0);
            AppealsOk([first], counters) && second.appealId == 1 && GlobalIndexRejects([first], second)
  {
    var first := NewAppeal(1, 10, 100, 1, "reason", None, 0);
    var counters := map[10 := 1];
    var second := NewAppeal(Bumped(counters, 20), 20, 200, 1, "reason", None, 0);
    assert [first][0].appealId == second.appealId;
  }

  /** With the index on (guild, number), the counter's next number is never refused. */
  lemma FreshNumberAccepted(appeals: seq<Appeal>, counters: map<int, nat>, a: Appeal)
    requires AppealsOk(appeals, counters) && a.appealId == Bumped(counters, a.guildId)
    ensures !GuildIndexRejects(appeals, a)
  {
    forall i | 0 <= i < |appeals| ensures !(appeals[i].guildId == a.guildId && appeals[i].appealId == a.appealId) {
      assert IdCounted(appeals[i], counters);
    }
  }

  /** The appeal a guild's review buttons refer to. */
  function FindAppeal(appeals: seq<Appeal>, g: int, id: nat): (r: Option<nat>)
    ensures r.Some? ==> r.value < |appeals| && appeals[r.value].guildId == g && appeals[r.value].appealId == id
    ensures r.None? <==> forall i :: 0 <= i < |appeals| ==> !(appeals[i].guildId == g && appeals[i].appealId == id)
  {
    FirstWhere(appeals, (a: Appeal) => a.guildId == g && a.appealId == id)
  }

  // ---------------------------------------------------------------------
  // Reviewing
  // ---------------------------------------------------------------------

  /** The appeal after a review's `update_one`. */
  function Decided(a: Appeal, d: Decision, reviewer: int, now: int): (r: Appeal)
    ensures r.status == StatusOf(d) && r.status != Pending && r.reviewedBy == Some(reviewer)
    ensures r.appealId == a.appealId && r.guildId == a.guildId && r.userId == a.userId && r.caseId == a.caseId
    ensures r.createdAt == a.createdAt
  {
    a.(status := StatusOf(d), reviewedBy := Some(reviewer), reviewedAt := Some(now), updatedAt := now)
  }

  lemma DecideOk(appeals: seq<Appeal>, counters: map<int, nat>, i: nat, d: Decision, reviewer: int, now: int)
    requires AppealsOk(appeals, counters) && i < |appeals|
    ensures AppealsOk(appeals[i := Decided(appeals[i], d, reviewer, now)], counters)
  {
    var s := appeals[i := Decided(appeals[i], d, reviewer, now)];
    forall k | 0 <= k < |s| ensures IdCounted(s[k], counters) {
      assert IdCounted(appeals[k], counters);
    }
    forall k, j | 0 <= k < j < |s| ensures DistinctKeys(s[k], s[j]) {
      assert DistinctKeys(appeals[k], appeals[j]);
    }
  }

  /**
   * As written, `unmuted_by_id` is read from the appeal fetched before the
   * review was stored; a pending appeal names no reviewer, so it is None.
   */
  lemma StaleUnmuterIsNone(appeals: seq<Appeal>, counters: map<int, nat>, i: nat)
    requires AppealsOk(appeals, counters) && i < |appeals| && appeals[i].status == Pending
    ensures appeals[i].reviewedBy == None
  {
    assert ReviewRecorded(appeals[i]);
  }

  /** The note `_unmute_user_from_appeal` stores. */
  function AppealNote(id: nat): string
  {
    "Appeal #" + NatToString(id) + " approved"
  }

  /** What the unmute meets: the member is found, the role removal and the update go through. */
  datatype UnmuteEnv = UnmuteEnv(memberFound: bool, removeOk: bool, updateOk: bool)

  predicate UnmuteWorks(configs: map<int, GuildConfig>, guild: Guild, e: UnmuteEnv)
  {
    guild.id in configs && HasRole(guild, configs[guild.id].mutedRoleId) && e.memberFound && e.removeOk && e.updateOk
  }

  /**
   * `_unmute_user_from_appeal`: configuration, Muted role and member, the
   * role removal, then `update_many` closing the member's active mutes
   * with the appeal's note; `unmuter` is stored as `unmuted_by_id`.
   */
  method UnmuteFromAppeal(mdb: MuteDb, guild: Guild, a: Appeal, unmuter: Option<int>, now: int, e: UnmuteEnv)
    returns (ok: bool)
    requires mdb.Valid()
    modifies mdb
    ensures mdb.Valid()
    ensures ok <==> UnmuteWorks(mdb.configs, guild, e)
    ensures mdb.mutes == if ok then DeactivateAll(old(mdb.mutes), guild.id, a.userId, now, unmuter, Some(AppealNote(a.appealId)))
                         else old(mdb.mutes)
    ensures mdb.configs == old(mdb.configs) && mdb.counters == old(mdb.counters)
    ensures mdb.pending == old(mdb.pending) && mdb.serial == old(mdb.serial)
  {
    if guild.id !in mdb.configs {
      return false;
    }
    if !HasRole(guild, mdb.configs[guild.id].mutedRoleId) {
      return false;
    }
    if !e.memberFound || !e.removeOk || !e.updateOk {
      return false;
    }
    var note := Some(AppealNote(a.appealId));
    DeactivateAllOk(mdb.mutes, mdb.counters, guild.id, a.userId, now, unmuter, note);
    mdb.mutes := DeactivateAll(mdb.mutes, guild.id, a.userId, now, unmuter, note);
    ok := true;
  }

  datatype ReviewReply = Reviewed | AppealNotFound | AlreadySettled(status: AppealStatus)
                       | UpdateFailed | ApprovedNotUnmuted

  // ---------------------------------------------------------------------
  // Expiry
  // ---------------------------------------------------------------------

  /** Selected by the expiry loop: still pending and created more than seven days ago. */
  predicate Overdue(a: Appeal, now: int)
  {
    a.status == Pending && a.createdAt < now - ReviewTimeoutSeconds
  }

  /** `update_many` of `_expire_appeals_loop`. */
  function ExpireOverdue(appeals: seq<Appeal>, now: int): (r: seq<Appeal>)
    ensures |r| == |appeals|
  {
    seq(|appeals|, i requires 0 <= i < |appeals| =>
      if Overdue(appeals[i], now) then appeals[i].(status := Expired, updatedAt := now) else appeals[i])
  }

  /** Exactly the overdue appeals change, and they become expired. */
  lemma ExpireEffect(appeals: seq<Appeal>, now: int, i: nat)
    requires i < |appeals|
    ensures ExpireOverdue(appeals, now)[i] != appeals[i] <==> Overdue(appeals[i], now)
    ensures ExpireOverdue(appeals, now)[i].status == if Overdue(appeals[i], now) then Expired else appeals[i].status
    ensures !Overdue(ExpireOverdue(appeals, now)[i], now)
  {
  }

  /** A second run at the same time changes nothing. */
  lemma ExpireIdempotent(appeals: seq<Appeal>, now: int)
    ensures ExpireOverdue(ExpireOverdue(appeals, now), now) == ExpireOverdue(appeals, now)
  {
    var once := ExpireOverdue(appeals, now);
    forall i | 0 <= i < |once| ensures !Overdue(once[i], now) {
      ExpireEffect(appeals, now, i);
    }
  }

  lemma ExpireOk(appeals: seq<Appeal>, counters: map<int, nat>, now: int)
    requires AppealsOk(appeals, counters)
    ensures AppealsOk(ExpireOverdue(appeals, now), counters)
    ensures SettledKept(appeals, ExpireOverdue(appeals, now))
  {
    var s := ExpireOverdue(appeals, now);
    forall k | 0 <= k < |s| ensures IdCounted(s[k], counters) && ReviewRecorded(s[k]) {
      assert IdCounted(appeals[k], counters) && ReviewRecorded(appeals[k]);
    }
    forall k, j | 0 <= k < j < |s| ensures DistinctKeys(s[k], s[j]) {
      assert DistinctKeys(appeals[k], appeals[j]);
    }
  }

  // ---------------------------------------------------------------------
  // The collections
  // ---------------------------------------------------------------------

  /** The `appeal_counters` and `appeals` collections. */
  class AppealDb {
    var counters: map<int, nat>
    var appeals: seq<Appeal>

    ghost predicate Valid()
      reads this
    {
      AppealsOk(appeals, counters)
    }

    constructor ()
      ensures Valid() && counters == map[] && appeals == []
    {
      counters := map[];
      appeals := [];
    }

    /** `_next_appeal_id`: the atomic `$inc`, or the fallback that inserts 1 or writes the value plus one. */
    method NextAppealId(g: int, atomic: bool) returns (id: nat)
      requires Valid()
      modifies this
      ensures Valid()
      ensures id == Bumped(old(counters), g) && counters == old(counters)[g := id]
      ensures appeals == old(appeals)
    {
      BumpAppealOk(appeals, counters, g);
      if atomic {
        id := (if g in counters then counters[g] else 0) + 1;
        counters := counters[g := id];
      } else if g !in counters {
        counters := counters[g := 1];
        id := 1;
      } else {
        id := counters[g] + 1;
        counters := counters[g := id];
      }
    }

    /**
     * `_create_appeal`: the submission check, then the case checks, then a
     * number from the counter (used up even when the insert fails) and the
     * pending document.
     */
    method CreateAppeal(mutes: seq<MuteDoc>, g: int, u: int, c: nat, reason: string, info: Option<string>,
                        now: int, atomic: bool, insertOk: bool) returns (r: CreateReply)
      requires Valid()
      modifies this
      ensures Valid()
      ensures CanSubmitAppeal(old(appeals), g, u, now) != MaySubmit ==>
                r == CreateRefused(CannotSubmit(CanSubmitAppeal(old(appeals), g, u, now)))
      ensures CanSubmitAppeal(old(appeals), g, u, now) == MaySubmit && CaseCheck(mutes, g, u, c).Some? ==>
                r == CreateRefused(CaseCheck(mutes, g, u, c).value)
      ensures r.Created? <==> CanSubmitAppeal(old(appeals), g, u, now) == MaySubmit && CaseCheck(mutes, g, u, c).None?
                              && insertOk
      ensures counters == if CanSubmitAppeal(old(appeals), g, u, now) == MaySubmit && CaseCheck(mutes, g, u, c).None?
                          then old(counters)[g := Bumped(old(counters), g)] else old(counters)
      ensures r.Created? ==> r.appealId == Bumped(old(counters), g)
                             && appeals == old(appeals) + [NewAppeal(r.appealId, g, u, c, reason, info, now)]
      ensures !r.Created? ==> appeals == old(appeals)
    {
      var verdict := CanSubmitAppeal(appeals, g, u, now);
      if verdict != MaySubmit {
        return CreateRefused(CannotSubmit(verdict));
      }
      var caseRefusal := CaseCheck(mutes, g, u, c);
      if caseRefusal.Some? {
        return CreateRefused(caseRefusal.value);
      }
      ghost var counters0 := counters;
      var id := NextAppealId(g, atomic);
      if !insertOk {
        return CreateRefused(InsertFailed);
      }
      var a := NewAppeal(id, g, u, c, reason, info, now);
      AppendAppealOk(appeals, counters0, a);
      appeals := appeals + [a];
      r := Created(id);
    }

    /**
     * `_process_appeal_review`: only a pending appeal is reviewed; the
     * review is stored first, and an approval then unmutes the member,
     * recording the reviewer as the one who unmuted.
     */
    method ProcessReview(mdb: MuteDb, guild: Guild, id: nat, reviewer: int, d: Decision, now: int,
                         updateOk: bool, e: UnmuteEnv) returns (r: ReviewReply)
      requires Valid() && mdb.Valid()
      modifies this, mdb
      ensures Valid() && mdb.Valid()
      ensures counters == old(counters) && SettledKept(old(appeals), appeals) && |appeals| == |old(appeals)|
      ensures mdb.configs == old(mdb.configs) && mdb.counters == old(mdb.counters)
      ensures mdb.pending == old(mdb.pending) && mdb.serial == old(mdb.serial)
      ensures FindAppeal(old(appeals), guild.id, id).None? ==> r == AppealNotFound
      ensures var k := FindAppeal(old(appeals), guild.id, id);
              k.Some? && old(appeals)[k.value].status != Pending ==> r == AlreadySettled(old(appeals)[k.value].status)
      ensures var k := FindAppeal(old(appeals), guild.id, id);
              (k.None? || old(appeals)[k.value].status != Pending || !updateOk) ==>
                appeals == old(appeals) && mdb.mutes == old(mdb.mutes) && (k.Some? && old(appeals)[k.value].status == Pending ==> r == UpdateFailed)
      ensures var k := FindAppeal(old(appeals), guild.id, id);
              k.Some? && old(appeals)[k.value].status == Pending && updateOk ==>
                && appeals == old(appeals)[k.value := Decided(old(appeals)[k.value], d, reviewer, now)]
                && (d == Deny ==> r == Reviewed && mdb.mutes == old(mdb.mutes))
                && (d == Approve ==>
                      (r == Reviewed <==> UnmuteWorks(mdb.configs, guild, e))
                      && (r != Reviewed ==> r == ApprovedNotUnmuted)
                      && mdb.mutes == if UnmuteWorks(mdb.configs, guild, e)
                                      then DeactivateAll(old(mdb.mutes), guild.id, old(appeals)[k.value].userId, now,
                                                         Some(reviewer), Some(AppealNote(id)))
                                      else old(mdb.mutes))
    {
      var k := FindAppeal(appeals, guild.id, id);
      if k.None? {
        return AppealNotFound;
      }
      var a := appeals[k.value];
      if a.status != Pending {
        return AlreadySettled(a.status);
      }
      if !updateOk {
        return UpdateFailed;
      }
      DecideOk(appeals, counters, k.value, d, reviewer, now);
      appeals := appeals[k.value := Decided(a, d, reviewer, now)];
      r := Reviewed;
      if d == Approve {
        var ok := UnmuteFromAppeal(mdb, guild, a, Some(reviewer), now, e);
        if !ok {
          r := ApprovedNotUnmuted;
        }
      }
    }

    /** One run of `_expire_appeals_loop`; a failed update changes nothing. */
    method ExpireAppeals(now: int, updateOk: bool)
      requires Valid()
      modifies this
      ensures Valid()
      ensures appeals == if updateOk then ExpireOverdue(old(appeals), now) else old(appeals)
      ensures counters == old(counters) && SettledKept(old(appeals), appeals)
    {
      if updateOk {
        ExpireOk(appeals, counters, now);
        appeals := ExpireOverdue(appeals, now);
      }
    }
  }

  /** Once reviewed, an appeal is settled: a second review is refused and expiry leaves it alone. */
  lemma ReviewedOnce(a: Appeal, d: Decision, reviewer: int, now: int, later: int)
    ensures Decided(a, d, reviewer, now).status != Pending
    ensures !Overdue(Decided(a, d, reviewer, now), later)
  {
  }
}
