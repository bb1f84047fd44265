/**
 * The older single-file mute cog (`ImprovedMuteCog`): the same
 * collections, counter and pending DM deletions as the current
 * quarantine cog, with fewer checks. Each cog keeps its own collections;
 * the methods here act on a `MuteDb` of their own.
 */
module QuarantineLegacy {
  import opened Common
  import opened Quarantine

  // ---------------------------------------------------------------------
  // Command arguments
  // ---------------------------------------------------------------------

  /**
   * The legacy parsing: the unbounded `parse_duration`, and `if dur:`,
   * which is false for a zero duration, so such a word starts the reason.
   */
  function LegacyParseMuteArgs(args: seq<string>): (a: MuteArgs)
    ensures a.silent <==> |args| > 0 && args[0] == SilentFlag
    ensures a.duration.Some? ==> a.duration.value > 0 && AfterFlag(args) != []
                                 && LegacyParseDuration(AfterFlag(args)[0]) == a.duration
    ensures a.duration.None? ==>
              a.reason == (if AfterFlag(args) == [] then DefaultReason else Join(" ", AfterFlag(args)))
  {
    var silent := |args| > 0 && args[0] == SilentFlag;
    var rest := AfterFlag(args);
    if rest == [] then MuteArgs(silent, None, DefaultReason)
    else match LegacyParseDuration(rest[0])
      case Some(d) =>
        if d > 0 then MuteArgs(silent, Some(d), if |rest| > 1 then Join(" ", rest[1..]) else DefaultReason)
        else MuteArgs(silent, None, Join(" ", rest))
      case None => MuteArgs(silent, None, Join(" ", rest))
  }

  /** A day count above the current cog's limit. */
  predicate LongDays(w: string)
  {
    DurationGroups(w).Some? && DurationGroups(w).value.1 == 'd' && DurationGroups(w).value.0 > MaxDays
  }

  /** The two cogs read the same arguments alike except when the duration is more than 365 days. */
  lemma LegacyParseMuteArgsAgrees(args: seq<string>)
    ensures LegacyParseMuteArgs(args) == ParseMuteArgs(args) <==> !(AfterFlag(args) != [] && LongDays(AfterFlag(args)[0]))
  {
    var rest := AfterFlag(args);
    if rest != [] {
      LegacyParseAgrees(rest[0]);
      if LongDays(rest[0]) {
        assert LegacyParseDuration(rest[0]).value > 0;
      }
    }
  }

  /** A zero duration is not a duration for the legacy cog: it becomes the first word of the reason. */
  lemma LegacyZeroDurationIsReason(w: string, words: seq<string>)
    requires LegacyParseDuration(w) == Some(0)
    ensures LegacyParseMuteArgs([w] + words) == MuteArgs(false, None, Join(" ", [w] + words))
  {
    var g := DurationGroups(w).value;
    var digits :| IsDigitString(digits) && (w == digits + [g.1] || w == digits + [g.1] + "\n");
    assert w[0] == digits[0];
    assert IsDigit(digits[0]);
    assert w != SilentFlag by {
      assert SilentFlag[0] == '-';
    }
    assert AfterFlag([w] + words) == [w] + words;
  }

  /** A day count over 365 is a duration for the legacy cog and part of the reason for the current one. */
  lemma LegacyAcceptsLongMute(silent: bool, n: nat, words: seq<string>)
    requires n > MaxDays
    ensures LegacyParseMuteArgs((if silent then [SilentFlag] else []) + [NatToString(n) + ['d']] + words) ==
            MuteArgs(silent, Some(n * UnitSeconds('d')), if words == [] then DefaultReason else Join(" ", words))
  {
    var w := NatToString(n) + ['d'];
    var d := n * UnitSeconds('d');
    assert d > 0 by { assert UnitSeconds('d') == 86400; }
    LongDayWord(n);
    FlagThenWords(silent, w, words);
    var args := (if silent then [SilentFlag] else []) + [w] + words;
    var rest := [w] + words;
    assert AfterFlag(args) == rest && LegacyParseDuration(rest[0]) == Some(d);
    assert |rest| > 1 <==> words != [];
    assert LegacyParseMuteArgs(args) == MuteArgs(silent, Some(d), if |rest| > 1 then Join(" ", rest[1..]) else DefaultReason);
  }

  /** The current cog reads the same arguments as a reason without a duration. */
  lemma CurrentRejectsLongMute(silent: bool, n: nat, words: seq<string>)
    requires n > MaxDays
    ensures ParseMuteArgs((if silent then [SilentFlag] else []) + [NatToString(n) + ['d']] + words) ==
            MuteArgs(silent, None, Join(" ", [NatToString(n) + ['d']] + words))
  {
    var w := NatToString(n) + ['d'];
    LongDayWord(n);
    FlagThenWords(silent, w, words);
  }

  lemma LongDayWord(n: nat)
    requires n > MaxDays
    ensures LegacyParseDuration(NatToString(n) + ['d']) == Some(n * UnitSeconds('d'))
    ensures ParseDuration(NatToString(n) + ['d']) == None
    ensures NatToString(n) + ['d'] != SilentFlag
  {
    var w := NatToString(n) + ['d'];
    DurationGroupsOf(n, 'd');
    assert w[0] == NatToString(n)[0];
  }

  // ---------------------------------------------------------------------
  // Hierarchy and the overwrite sweep
  // ---------------------------------------------------------------------

  /**
   * The legacy `_can_manage_member`: Manage Roles and a target strictly
   * below the bot; no owner check. Without a bot member the attribute
   * access fails and the command ends in its generic error reply.
   */
  function LegacyCanManageMember(guild: Guild, target: Member): (v: Verdict)
    ensures v.Allowed? <==> guild.me.Some? && guild.me.value.manageRoles && target.topRole < guild.me.value.topRole
    ensures guild.me.None? ==> v == Refused(BotAbsent)
  {
    if guild.me.None? then Refused(BotAbsent)
    else if !guild.me.value.manageRoles then Refused(NoManageRoles)
    else if target.topRole >= guild.me.value.topRole then Refused(TargetNotBelowBot)
    else Allowed
  }

  /** The legacy check passes whenever the current one does, and differs only on the owner. */
  lemma LegacyCanManageWeaker(guild: Guild, target: Member)
    ensures CanManageMember(guild, target).Allowed? ==> LegacyCanManageMember(guild, target).Allowed?
    ensures target.id != guild.ownerId ==>
              (LegacyCanManageMember(guild, target).Allowed? <==> CanManageMember(guild, target).Allowed?)
  {
  }

  /** The owner passes the legacy check when their top role is below the bot's. */
  lemma LegacyOwnerManageable(guild: Guild, target: Member)
    requires target.id == guild.ownerId && guild.me.Some? && guild.me.value.manageRoles
    requires target.topRole < guild.me.value.topRole
    ensures LegacyCanManageMember(guild, target).Allowed? && CanManageMember(guild, target).Refused?
  {
  }

  /** The legacy sweep touches text, voice and forum channels only. */
  predicate IsLegacyTarget(c: Channel) { c.kind == TextKind || c.kind == VoiceKind || c.kind == ForumKind }

  /** A first attempt and, after an HTTP error, one retry. */
  const LegacyAttempts: nat := 2

  /** What the legacy sweep writes and which channels it reports. */
  function LegacySweepOutcome(channels: seq<Channel>, jailId: int, outcome: (int, nat) -> Attempt): (r: SweepResult)
    ensures r.Swept?
    ensures forall c :: c in r.failed ==> c in channels && IsLegacyTarget(c) && !Succeeds(outcome, c.id, 1, LegacyAttempts)
  {
    var targets := Filter(channels, IsLegacyTarget);
    Swept(WritesTo(Filter(targets, Succeeding(outcome, LegacyAttempts)), jailId),
          Filter(targets, Failing(outcome, LegacyAttempts)))
  }

  /**
   * The legacy `_apply_muted_overwrites`: no permission precheck, one pass
   * in channel order, the failed channels returned (by name in the cog).
   */
  method LegacySweep(guild: Guild, jailId: int, outcome: (int, nat) -> Attempt) returns (r: SweepResult)
    ensures r == LegacySweepOutcome(guild.channels, jailId, outcome)
  {
    var targets := Filter(guild.channels, IsLegacyTarget);
    var writes, failed := SweepPass(targets, jailId, LegacyAttempts, outcome);
    r := Swept(writes, failed);
  }

  /** Every write goes to a text, voice or forum channel of the guild, the jail opens and the rest are hidden. */
  lemma LegacySweepWrites(channels: seq<Channel>, jailId: int, outcome: (int, nat) -> Attempt, k: nat)
    requires k < |LegacySweepOutcome(channels, jailId, outcome).writes|
    ensures var w := LegacySweepOutcome(channels, jailId, outcome).writes[k];
            w.channel in channels && IsLegacyTarget(w.channel) && !IsCategory(w.channel)
            && (w.overwrite == JailAllow <==> w.channel.id == jailId)
            && Succeeds(outcome, w.channel.id, 1, LegacyAttempts)
  {
    var done := Filter(Filter(channels, IsLegacyTarget), Succeeding(outcome, LegacyAttempts));
    assert done[k] in done;
  }

  /** A channel is reported exactly when it is a target and neither the first attempt nor the retry applied. */
  lemma LegacySweepFailedIff(channels: seq<Channel>, jailId: int, outcome: (int, nat) -> Attempt, c: Channel)
    ensures c in LegacySweepOutcome(channels, jailId, outcome).failed <==>
            c in channels && IsLegacyTarget(c)
            && !(outcome(c.id, 1) == Applied || (outcome(c.id, 1) == HttpError && outcome(c.id, 2) == Applied))
  {
    LegacyRetryIsTwoAttempts(outcome, c.id);
  }

  // ---------------------------------------------------------------------
  // qmute / qunmute
  // ---------------------------------------------------------------------

  /** The legacy document: the reason is stored whole. */
  function LegacyNewMute(g: int, u: int, moderator: int, a: MuteArgs, now: int, c: nat): (d: MuteDoc)
    ensures d.active && d.guildId == g && d.userId == u && d.caseId == c && d.reason == a.reason
    ensures d.expiresAt.Some? <==> a.duration.Some?
    ensures a.duration.Some? ==> d.expiresAt == Some(now + a.duration.value)
  {
    MuteDoc(g, u, moderator, a.reason, now, true, c, a.silent,
            if a.duration.Some? then Some(now + a.duration.value) else None, None, None, None)
  }

  /** The two cogs write the same document unless the reason is over 2000 characters. */
  lemma LegacyDocAgrees(g: int, u: int, moderator: int, a: MuteArgs, now: int, c: nat)
    ensures LegacyNewMute(g, u, moderator, a, now, c) == NewMute(g, u, moderator, a, now, c)
            <==> |a.reason| <= MaxReasonLength
  {
  }

  /** Every check the legacy `qmute` makes before touching roles passes. */
  predicate LegacyMutePermitted(cfg: Option<GuildConfig>, guild: Guild, author: Member, target: Member, m: seq<MuteDoc>)
  {
    && cfg.Some? && MayModerate(cfg.value, guild, author)
    && LegacyCanManageMember(guild, target).Allowed?
    && !HasActive(m, guild.id, target.id)
    && ConfigComplete(cfg.value, guild)
  }

  /** Whatever the current `qmute` lets through, the legacy one does too. */
  lemma LegacyMutePermitsMore(cfg: Option<GuildConfig>, guild: Guild, author: Member, target: Member,
                              botUserId: int, m: seq<MuteDoc>)
    ensures MutePermitted(cfg, guild, author, target, botUserId, m) ==> LegacyMutePermitted(cfg, guild, author, target, m)
  {
    LegacyCanManageWeaker(guild, target);
  }

  /** The legacy `qmute` lets a moderator mute themselves; the current one never does. */
  lemma LegacyAllowsSelfMute(cfg: Option<GuildConfig>, guild: Guild, moderator: Member, botUserId: int, m: seq<MuteDoc>)
    requires LegacyMutePermitted(cfg, guild, moderator, moderator, m)
    ensures !MutePermitted(cfg, guild, moderator, moderator, botUserId, m)
  {
  }

  /**
   * The legacy `qmute`: configuration, permission, arguments, the bot's
   * hierarchy, an existing mute, the configured objects, the Muted role,
   * the sweep (result ignored), the case, the document and the DM.
   * `Rejected(BotBlocked(BotAbsent))` stands for the generic error reply.
   */
  method LegacyQMute(db: MuteDb, guild: Guild, author: Member, target: Member,
                     args: seq<string>, now: int, env: MuteEnv) returns (r: MuteReply)
    requires db.Valid()
    modifies db
    ensures db.Valid()
    ensures db.configs == old(db.configs)
    ensures r.Muted? <==> LegacyMutePermitted(ConfigOf(old(db.configs), guild.id), guild, author, target, old(db.mutes))
                          && env.addRole == RoleOk
    ensures ConfigOf(old(db.configs), guild.id).None? ==> r == Rejected(NotConfigured)
    ensures r.Rejected? ==> db.mutes == old(db.mutes) && db.counters == old(db.counters)
                            && db.pending == old(db.pending) && db.serial == old(db.serial)
    ensures r.Muted? ==> r.caseId == Bumped(old(db.counters), guild.id)
                         && db.counters == old(db.counters)[guild.id := r.caseId]
    ensures r.Muted? ==> (db.mutes == old(db.mutes) +
              (if env.insertOk then [LegacyNewMute(guild.id, target.id, author.id, LegacyParseMuteArgs(args), now, r.caseId)]
               else []))
    ensures r.Muted? ==> r.dmSent == (!LegacyParseMuteArgs(args).silent && env.dm.Some? && env.pendingInsertOk)
    ensures r.Muted? ==> (db.pending == old(db.pending) +
              (if r.dmSent then [PendingDelete(old(db.serial), guild.id, Some(target.id), env.dm, Some(now + DmLifetime))]
               else []))
    ensures r.Muted? ==> db.serial == old(db.serial) + (if r.dmSent then 1 else 0)
  {
    var cfgOpt := ConfigOf(db.configs, guild.id);
    if cfgOpt.None? {
      return Rejected(NotConfigured);
    }
    var cfg := cfgOpt.value;
    if !MayModerate(cfg, guild, author) {
      return Rejected(NoPermission);
    }
    var a := LegacyParseMuteArgs(args);
    var bot := LegacyCanManageMember(guild, target);
    if bot.Refused? {
      return Rejected(BotBlocked(bot.why));
    }
    if FirstActive(db.mutes, guild.id, target.id).Some? {
      return Rejected(AlreadyMuted);
    }
    if !ConfigComplete(cfg, guild) {
      return Rejected(ConfigIncomplete);
    }
    if env.addRole != RoleOk {
      return Rejected(AddRoleFailed(env.addRole));
    }
    var _ := LegacySweep(guild, cfg.jailChannelId.value, env.sweep);
    ghost var counters0 := db.counters;
    var c := db.NextCase(guild.id, env.atomicCounter);
    if env.insertOk {
      var d := LegacyNewMute(guild.id, target.id, author.id, a, now, c);
      AppendMuteOk(db.mutes, counters0, d);
      db.mutes := db.mutes + [d];
    }
    var dmSent := false;
    if !a.silent && env.dm.Some? && env.pendingInsertOk {
      db.RecordDmDelete(guild.id, target.id, env.dm.value, now);
      dmSent := true;
    }
    r := Muted(c, dmSent);
  }

  /** Every check the legacy `qunmute` makes passes. */
  predicate LegacyUnmutePermitted(cfg: Option<GuildConfig>, guild: Guild, author: Member, target: Member, m: seq<MuteDoc>)
  {
    && cfg.Some? && MayModerate(cfg.value, guild, author)
    && HasRole(guild, cfg.value.mutedRoleId)
    && HasActive(m, guild.id, target.id)
  }

  /** Whatever the current `qunmute` lets through, the legacy one does too. */
  lemma LegacyUnmutePermitsMore(cfg: Option<GuildConfig>, guild: Guild, author: Member, target: Member, m: seq<MuteDoc>)
    ensures UnmutePermitted(cfg, guild, author, target, m) ==> LegacyUnmutePermitted(cfg, guild, author, target, m)
  {
  }

  /** A moderator who is not an administrator may unmute themselves only under the legacy cog. */
  lemma LegacyAllowsSelfUnmute(cfg: Option<GuildConfig>, guild: Guild, moderator: Member, m: seq<MuteDoc>)
    requires LegacyUnmutePermitted(cfg, guild, moderator, moderator, m) && !moderator.admin
    ensures !UnmutePermitted(cfg, guild, moderator, moderator, m)
  {
  }

  /**
   * The legacy `qunmute`: configuration, permission, the Muted role, an
   * active mute; a failed bot hierarchy check only produces the warning
   * `warned`, and the record is closed whatever the role removal does.
   */
  method LegacyQUnmute(db: MuteDb, guild: Guild, author: Member, target: Member, now: int, updateOk: bool)
    returns (r: UnmuteReply, warned: bool)
    requires db.Valid()
    modifies db
    ensures db.Valid()
    ensures db.configs == old(db.configs) && db.counters == old(db.counters)
    ensures db.pending == old(db.pending) && db.serial == old(db.serial)
    ensures r.Unmuted? <==> LegacyUnmutePermitted(ConfigOf(old(db.configs), guild.id), guild, author, target, old(db.mutes))
    ensures r.Unmuted? ==> r.caseId == old(db.mutes)[FirstActive(old(db.mutes), guild.id, target.id).value].caseId
    ensures r.Unmuted? ==> warned == LegacyCanManageMember(guild, target).Refused?
    ensures r.Unmuted? ==> db.mutes == (if updateOk then DeactivateAll(old(db.mutes), guild.id, target.id, now, Some(author.id), None)
                                        else old(db.mutes))
    ensures r.UnmuteRejected? ==> db.mutes == old(db.mutes) && !warned
  {
    warned := false;
    var cfgOpt := ConfigOf(db.configs, guild.id);
    if cfgOpt.None? {
      return UnmuteRejected(UnmuteNotConfigured), false;
    }
    var cfg := cfgOpt.value;
    if !MayModerate(cfg, guild, author) {
      return UnmuteRejected(UnmuteNoPermission), false;
    }
    if !HasRole(guild, cfg.mutedRoleId) {
      return UnmuteRejected(MutedRoleMissing), false;
    }
    var found := FirstActive(db.mutes, guild.id, target.id);
    if found.None? {
      return UnmuteRejected(NotMuted), false;
    }
    warned := LegacyCanManageMember(guild, target).Refused?;
    var c := db.mutes[found.value].caseId;
    if updateOk {
      DeactivateAllOk(db.mutes, db.counters, guild.id, target.id, now, Some(author.id), None);
      db.mutes := DeactivateAll(db.mutes, guild.id, target.id, now, Some(author.id), None);
    }
    r := Unmuted(c);
  }

  // ---------------------------------------------------------------------
  // Auto-unmute
  // ---------------------------------------------------------------------

  /**
   * One due document's turn in the legacy loop: a missing guild or
   * configuration only switches it off; otherwise the role removal is
   * attempted, its errors ignored, and the record closed without a guard.
   */
  function LegacyTickDoc(d: MuteDoc, now: int, e: TickEnv): (r: MuteDoc)
    ensures r.guildId == d.guildId && r.userId == d.userId && r.caseId == d.caseId
    ensures r.active ==> d.active
    ensures !r.active <==> !d.active || e.updateOk
  {
    if !e.updateOk then d
    else if !e.guildPresent || !e.configPresent then d.(active := false)
    else Closed(d, now, None, None)
  }

  /** The legacy turn posts a log entry whenever the update went through and there is a log channel. */
  predicate LegacyTickLogs(e: TickEnv)
  {
    e.updateOk && e.guildPresent && e.configPresent && e.logChannel
  }

  /** The legacy turn is the current one except that an HTTP error on removal does not keep the mute. */
  lemma LegacyTickDocAgrees(d: MuteDoc, now: int, e: TickEnv)
    requires Due(d, now)
    ensures !RetryLater(e) ==> LegacyTickDoc(d, now, e) == TickDoc(d, now, e) && (LegacyTickLogs(e) <==> TickLogs(d, e))
    ensures RetryLater(e) && e.updateOk ==> !LegacyTickDoc(d, now, e).active && TickDoc(d, now, e) == d
  {
  }

  method LegacyTickTurn(d: MuteDoc, now: int, e: TickEnv) returns (nd: MuteDoc, logs: bool)
    requires Due(d, now)
    ensures nd == LegacyTickDoc(d, now, e) && logs == LegacyTickLogs(e)
  {
    nd, logs := d, false;
    if !e.guildPresent || !e.configPresent {
      if e.updateOk {
        nd := d.(active := false);
      }
      return;
    }
    if e.updateOk {
      nd := Closed(d, now, None, None);
      logs := e.logChannel;
    }
  }

  /** The collection once the first `n` documents had their legacy turn. */
  function LegacyTickedUpTo(m: seq<MuteDoc>, now: int, envOf: nat -> TickEnv, n: nat): (r: seq<MuteDoc>)
    requires n <= |m|
    ensures |r| == |m|
  {
    if n == 0 then m
    else
      var before := LegacyTickedUpTo(m, now, envOf, n - 1);
      if Due(m[n - 1], now) then before[n - 1 := LegacyTickDoc(m[n - 1], now, envOf(n - 1))] else before
  }

  function LegacyTicked(m: seq<MuteDoc>, now: int, envOf: nat -> TickEnv): (r: seq<MuteDoc>)
    ensures |r| == |m|
  {
    LegacyTickedUpTo(m, now, envOf, |m|)
  }

  lemma {:induction false} LegacyTickedAt(m: seq<MuteDoc>, now: int, envOf: nat -> TickEnv, n: nat, i: nat)
    requires n <= |m| && i < |m|
    ensures LegacyTickedUpTo(m, now, envOf, n)[i] ==
            if i < n && Due(m[i], now) then LegacyTickDoc(m[i], now, envOf(i)) else m[i]
  {
    if n > 0 {
      LegacyTickedAt(m, now, envOf, n - 1, i);
    }
  }

  /** The documents among the first `n` whose legacy turn posts a log entry, in order. */
  function LegacyTickLog(m: seq<MuteDoc>, now: int, envOf: nat -> TickEnv, n: nat): seq<nat>
    requires n <= |m|
  {
    if n == 0 then []
    else LegacyTickLog(m, now, envOf, n - 1)
         + (if Due(m[n - 1], now) && LegacyTickLogs(envOf(n - 1)) then [n - 1] else [])
  }

  lemma {:induction false} LegacyTickLogMembers(m: seq<MuteDoc>, now: int, envOf: nat -> TickEnv, n: nat, k: nat)
    requires n <= |m|
    ensures k in LegacyTickLog(m, now, envOf, n) <==> k < n && Due(m[k], now) && LegacyTickLogs(envOf(k))
  {
    if n > 0 {
      LegacyTickLogMembers(m, now, envOf, n - 1, k);
    }
  }

  /** The loop of the legacy `_auto_unmute_loop` over the documents its query returned. */
  method LegacyTickAll(docs: seq<MuteDoc>, now: int, envOf: nat -> TickEnv) returns (ms: seq<MuteDoc>, logged: seq<nat>)
    ensures ms == LegacyTicked(docs, now, envOf)
    ensures logged == LegacyTickLog(docs, now, envOf, |docs|)
  {
    ms := docs;
    logged := [];
    for i := 0 to |docs|
      invariant ms == LegacyTickedUpTo(docs, now, envOf, i)
      invariant logged == LegacyTickLog(docs, now, envOf, i)
    {
      var d := docs[i];
      LegacyTickedAt(docs, now, envOf, i, i);
      if Due(d, now) {
        var nd, logs := LegacyTickTurn(d, now, envOf(i));
        ms := ms[i := nd];
        if logs {
          logged := logged + [i];
        }
      }
    }
  }

  lemma LegacyTickedOk(m: seq<MuteDoc>, counters: map<int, nat>, now: int, envOf: nat -> TickEnv)
    requires MutesOk(m, counters)
    ensures MutesOk(LegacyTicked(m, now, envOf), counters)
  {
    var t := LegacyTicked(m, now, envOf);
    forall i | 0 <= i < |m|
      ensures t[i].guildId == m[i].guildId && t[i].userId == m[i].userId
              && t[i].caseId == m[i].caseId && (t[i].active ==> m[i].active)
    {
      LegacyTickedAt(m, now, envOf, |m|, i);
    }
    ClosingOk(m, t, counters);
  }

  /** Once the update goes through, a due mute is closed even if removing the role failed. */
  lemma LegacyTickIgnoresRemovalFailure(m: seq<MuteDoc>, now: int, envOf: nat -> TickEnv, i: nat)
    requires i < |m| && Due(m[i], now) && envOf(i).updateOk
    ensures !LegacyTicked(m, now, envOf)[i].active
    ensures RetryLater(envOf(i)) ==> Ticked(m, now, envOf)[i].active
  {
    LegacyTickedAt(m, now, envOf, |m|, i);
    TickedAt(m, now, envOf, |m|, i);
  }

  /** A logged document was closed by the tick, so a later tick never logs it again. */
  lemma LegacyTickLogsOnce(m: seq<MuteDoc>, now: int, envOf: nat -> TickEnv, later: int, envOf2: nat -> TickEnv, k: nat)
    requires k in LegacyTickLog(m, now, envOf, |m|)
    ensures k < |m| && m[k].active && !LegacyTicked(m, now, envOf)[k].active
    ensures k !in LegacyTickLog(LegacyTicked(m, now, envOf), later, envOf2, |m|)
  {
    LegacyTickLogMembers(m, now, envOf, |m|, k);
    LegacyTickLogMembers(LegacyTicked(m, now, envOf), later, envOf2, |m|, k);
    LegacyTickedAt(m, now, envOf, |m|, k);
  }

  /** One run of the legacy `_auto_unmute_loop`; returns the documents whose closing was logged. */
  method LegacyAutoUnmuteTick(db: MuteDb, now: int, envOf: nat -> TickEnv) returns (logged: seq<nat>)
    requires db.Valid()
    modifies db
    ensures db.Valid()
    ensures db.mutes == LegacyTicked(old(db.mutes), now, envOf)
    ensures logged == LegacyTickLog(old(db.mutes), now, envOf, |old(db.mutes)|)
    ensures db.configs == old(db.configs) && db.counters == old(db.counters)
    ensures db.pending == old(db.pending) && db.serial == old(db.serial)
  {
    var ms;
    ms, logged := LegacyTickAll(db.mutes, now, envOf);
    LegacyTickedOk(db.mutes, db.counters, now, envOf);
    db.mutes := ms;
  }
}
