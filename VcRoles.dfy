/**
 * `cogs/vc-roles.py`: a per-guild role that members hold exactly while they
 * are in a voice channel. The model covers the configuration cache and its
 * table, the `/vc-role` command, the voice-state listener with its
 * processing set, the role retry loop, the periodic sync plan and the
 * validity sweep.
 *
 * Discord ids are never 0, so Python's truthiness tests on ids are written
 * here as `Some`/`None`.
 */
module VcRoles {
  import opened Common

  const MaxRetries := 3

  datatype Member = Member(id: int, bot: bool)

  /** A `vc_roles` row: the role and the optional log channel. */
  datatype Config = Config(roleId: int, logChannel: Option<int>)

  /** The ids of the non-bot members of a member list. */
  function HumanIds(ms: seq<Member>): (r: set<int>)
    ensures forall x :: x in r <==> Member(x, false) in ms
  {
    set m | m in ms && !m.bot :: m.id
  }

  // ---------------------------------------------------------------------------
  // The retry loop of `_add_role_with_retry` / `_remove_role_with_retry`
  // ---------------------------------------------------------------------------

  /** What one `add_roles`/`remove_roles` call did. */
  datatype Attempt = Done | Http(status: int, retryAfter: Option<nat>) | Unexpected

  /** 403 and 404 end the loop at once. */
  predicate Forbidden(a: Attempt) { a.Http? && (a.status == 403 || a.status == 404) }

  /** The outcomes after which the loop goes on (while attempts remain). */
  predicate Retryable(a: Attempt) { !a.Done? && !Forbidden(a) }

  /** `2 ** attempt`. */
  function Backoff(attempt: nat): (r: nat)
    ensures r >= 1
  {
    if attempt == 0 then 1 else 2 * Backoff(attempt - 1)
  }

  /** The result, the number of calls made, and the base delays slept (the random jitter excluded). */
  datatype RetryResult = RetryResult(ok: bool, attempts: nat, delays: seq<nat>)

  /**
   * Whether the loop goes on after an attempt that did not succeed: not
   * after 403/404, and not after an unexpected error on the last attempt
   * (which returns false at once).
   */
  predicate Continues(a: Attempt, attempt: nat, maxRetries: nat)
  {
    Retryable(a) && !(a.Unexpected? && attempt + 1 == maxRetries)
  }

  /** The base delay slept before the next attempt: `retry_after` (or `2 ** attempt`) on 429, else `2 ** attempt`. */
  function Wait(a: Attempt, attempt: nat): (r: nat)
    ensures a.Http? && a.status == 429 && a.retryAfter.Some? ==> r == a.retryAfter.value
    ensures !(a.Http? && a.status == 429 && a.retryAfter.Some?) ==> r == Backoff(attempt)
  {
    if a.Http? && a.status == 429 && a.retryAfter.Some? then a.retryAfter.value else Backoff(attempt)
  }

  /**
   * The loop from attempt `from` on: success returns true; 403/404 returns
   * false; a 429 sleeps `retry_after` (or `2 ** attempt`) and retries; any
   * other HTTP error sleeps `2 ** attempt` and retries; an unexpected error
   * returns false on the last attempt and otherwise sleeps and retries.
   */
  function Retried(outcome: nat -> Attempt, from: nat, maxRetries: nat): (r: RetryResult)
    requires from <= maxRetries
    decreases maxRetries - from
    ensures from <= r.attempts <= maxRetries
    ensures from < maxRetries ==> r.attempts > from
    ensures r.ok ==> r.attempts > from && outcome(r.attempts - 1).Done?
    ensures r.attempts < maxRetries ==> r.attempts > from && (outcome(r.attempts - 1).Done? || Forbidden(outcome(r.attempts - 1)))
    ensures |r.delays| <= maxRetries - from
  {
    if from == maxRetries then RetryResult(false, from, [])
    else if outcome(from).Done? then RetryResult(true, from + 1, [])
    else if !Continues(outcome(from), from, maxRetries) then RetryResult(false, from + 1, [])
    else
      var rest := Retried(outcome, from + 1, maxRetries);
      rest.(delays := [Wait(outcome(from), from)] + rest.delays)
  }

  /** Attempt `k` succeeds within the budget and every attempt from `from` before it failed in a retryable way. */
  predicate SucceedsAt(outcome: nat -> Attempt, from: nat, maxRetries: nat, k: nat)
  {
    from <= k < maxRetries && outcome(k).Done? && forall j :: from <= j < k ==> Retryable(outcome(j))
  }

  /**
   * The call succeeds exactly when some attempt within the budget succeeds
   * and every attempt before it failed in a retryable way.
   */
  lemma {:induction false} RetrySucceedsIff(outcome: nat -> Attempt, from: nat, maxRetries: nat)
    requires from <= maxRetries
    decreases maxRetries - from
    ensures Retried(outcome, from, maxRetries).ok <==> exists k :: SucceedsAt(outcome, from, maxRetries, k)
  {
    if from < maxRetries {
      if outcome(from).Done? {
        assert SucceedsAt(outcome, from, maxRetries, from);
      } else if Continues(outcome(from), from, maxRetries) {
        assert Retried(outcome, from, maxRetries).ok == Retried(outcome, from + 1, maxRetries).ok;
        RetrySucceedsIff(outcome, from + 1, maxRetries);
        if Retried(outcome, from, maxRetries).ok {
          var k :| SucceedsAt(outcome, from + 1, maxRetries, k);
          assert SucceedsAt(outcome, from, maxRetries, k);
        }
        if exists k :: SucceedsAt(outcome, from, maxRetries, k) {
          var k :| SucceedsAt(outcome, from, maxRetries, k);
          assert SucceedsAt(outcome, from + 1, maxRetries, k);
        }
      } else {
        assert !Retried(outcome, from, maxRetries).ok;
        forall k | from <= k < maxRetries
          ensures !SucceedsAt(outcome, from, maxRetries, k)
        {
          if k > from {
            assert !Retryable(outcome(from)) || from + 1 == maxRetries;
          }
        }
      }
    }
  }


  /** The loop as written: one call per pass of `for attempt in range(max_retries)`. */
  method RoleWithRetry(outcome: nat -> Attempt, maxRetries: nat) returns (r: RetryResult)
    ensures r == Retried(outcome, 0, maxRetries)
  {
    var delays: seq<nat> := [];
    var attempt := 0;
    while attempt < maxRetries
      invariant attempt <= maxRetries
      invariant Retried(outcome, 0, maxRetries) ==
                var rest := Retried(outcome, attempt, maxRetries); rest.(delays := delays + rest.delays)
    {
      var a := outcome(attempt);
      if a.Done? {
        return RetryResult(true, attempt + 1, delays);
      }
      if !Continues(a, attempt, maxRetries) {
        return RetryResult(false, attempt + 1, delays);
      }
      ghost var rest := Retried(outcome, attempt + 1, maxRetries);
      assert delays + ([Wait(a, attempt)] + rest.delays) == (delays + [Wait(a, attempt)]) + rest.delays;
      delays := delays + [Wait(a, attempt)];
      attempt := attempt + 1;
    }
    assert delays + [] == delays;
    return RetryResult(false, maxRetries, delays);
  }

  // ---------------------------------------------------------------------------
  // `_sync_guild_roles`
  // ---------------------------------------------------------------------------

  datatype SyncPlan = SyncPlan(add: set<int>, remove: set<int>)

  /**
   * The ids to give the role (in a voice channel without it) and to take it
   * from (holding it outside every voice channel), bots excluded, keeping
   * only ids the guild resolves and that are not being processed.
   */
  function PlanSync(vcMembers: seq<Member>, roleMembers: seq<Member>, inGuild: set<int>, processing: set<int>)
    : (r: SyncPlan)
    ensures forall x :: x in r.add <==>
              Member(x, false) in vcMembers && Member(x, false) !in roleMembers && x in inGuild && x !in processing
    ensures forall x :: x in r.remove <==>
              Member(x, false) in roleMembers && Member(x, false) !in vcMembers && x in inGuild && x !in processing
    ensures r.add !! r.remove
  {
    var inVc := HumanIds(vcMembers);
    var holders := HumanIds(roleMembers);
    SyncPlan(set x | x in inVc - holders && x in inGuild && x !in processing,
             set x | x in holders - inVc && x in inGuild && x !in processing)
  }

  /**
   * Once every planned change lands, the non-bot role holders the guild
   * resolves and that are not being processed are exactly its non-bot
   * members in voice channels; members being processed are left as they were.
   */
  lemma SyncConverges(vcMembers: seq<Member>, roleMembers: seq<Member>, inGuild: set<int>, processing: set<int>)
    ensures var p := PlanSync(vcMembers, roleMembers, inGuild, processing);
            var after := (HumanIds(roleMembers) + p.add) - p.remove;
            && (forall x :: x in inGuild && x !in processing ==> (x in after <==> x in HumanIds(vcMembers)))
            && (forall x :: x in processing ==> (x in after <==> x in HumanIds(roleMembers)))
  {
  }

  /** The members `_apply_to_current_users` gives a new role: non-bots in a voice channel without it. */
  function InitialTargets(vcMembers: seq<Member>, holders: set<int>): (r: set<int>)
    ensures forall x :: x in r <==> Member(x, false) in vcMembers && x !in holders
  {
    HumanIds(vcMembers) - holders
  }

  // ---------------------------------------------------------------------------
  // The `vc_role` merge
  // ---------------------------------------------------------------------------

  /** What the guild looks like to the command. */
  datatype GuildEnv = GuildEnv(roles: set<int>, manageable: set<int>, textChannels: set<int>, loggable: set<int>)

  /** An omitted parameter keeps the current value; no role at all is refused. */
  function Merged(current: Option<Config>, role: Option<int>, log: Option<int>): (r: Option<Config>)
    ensures r.None? <==> role.None? && current.None?
    ensures r.Some? ==> r.value.roleId == (if role.Some? then role.value else current.value.roleId)
    ensures r.Some? ==> r.value.logChannel == (if log.Some? then log else if current.Some? then current.value.logChannel else None)
  {
    var roleId := if role.Some? then role else if current.Some? then Some(current.value.roleId) else None;
    var logId := if log.Some? then log else if current.Some? then current.value.logChannel else None;
    if roleId.None? then None else Some(Config(roleId.value, logId))
  }

  /** The role is applied to current voice members only when it is given and new or changed. */
  predicate AppliesToCurrent(current: Option<Config>, role: Option<int>)
  {
    role.Some? && (current.None? || role.value != current.value.roleId)
  }

  /** Re-running the same command changes nothing and applies nothing. */
  lemma MergeIdempotent(current: Option<Config>, role: Option<int>, log: Option<int>)
    requires Merged(current, role, log).Some?
    ensures Merged(Merged(current, role, log), role, log) == Merged(current, role, log)
    ensures !AppliesToCurrent(Merged(current, role, log), role)
  {
  }

  /** A configuration passes the validity sweep when its guild and its role still exist. */
  predicate StillValid(g: int, c: Config, present: map<int, set<int>>)
  {
    g in present && c.roleId in present[g]
  }

  function Invalid(configs: map<int, Config>, present: map<int, set<int>>): (r: set<int>)
    ensures forall g :: g in r <==> g in configs && !StillValid(g, configs[g], present)
  {
    set g | g in configs && !StillValid(g, configs[g], present)
  }

  datatype RoleReply =
    | NotAdministrator
    | NothingToRemove | RemoveFailed | RemovedConfig(roleKnown: bool)
    | NothingConfigured | Shown | StaleRoleCleaned
    | MustSpecifyRole | RoleMissing | CannotManage | InvalidLogChannel | CannotLog | SaveFailed
    | Saved(applied: bool)

  datatype VoiceAction = Skipped | ConfigDropped | RoleAdded(add: RetryResult) | RoleRemoved(remove: RetryResult) | NoChange

  datatype SyncReply = SyncNotAdministrator | NoConfig | RoleGone | NoPermission | Synced(plan: SyncPlan)

  class VcRolesCog {
    /** `vc_role_configs`. */
    var configs: map<int, Config>
    /** The `vc_roles` table. */
    var stored: map<int, Config>
    /** `processing_users`. */
    var processing: set<int>
    /** `_ready`. */
    var ready: bool

    /** Every cached configuration is the stored one. */
    predicate Valid()
      reads this
    {
      forall g :: g in configs ==> g in stored && stored[g] == configs[g]
    }

    constructor(table: map<int, Config>)
      ensures Valid() && configs == map[] && stored == table && processing == {} && !ready
    {
      configs := map[];
      stored := table;
      processing := {};
      ready := false;
    }

    /** `cog_load`: the table is loaded (or nothing, on an error) and the listener turns on. */
    method Load(dbOk: bool)
      modifies this
      ensures Valid() && stored == old(stored) && processing == old(processing) && ready
      ensures configs == if dbOk then stored else map[]
    {
      configs := if dbOk then stored else map[];
      ready := true;
    }

    /** `_delete_config`: the cache entry is dropped only after the row is deleted. */
    method DeleteConfig(g: int, dbOk: bool) returns (ok: bool)
      requires Valid()
      modifies this
      ensures Valid() && ok == dbOk && processing == old(processing) && ready == old(ready)
      ensures configs == if dbOk then old(configs) - {g} else old(configs)
      ensures stored == if dbOk then old(stored) - {g} else old(stored)
    {
      if dbOk {
        stored := stored - {g};
        configs := configs - {g};
      }
      ok := dbOk;
    }

    /** The `remove=True` branch of `/vc-role`. */
    method RemoveBranch(g: int, env: GuildEnv, dbOk: bool) returns (reply: RoleReply)
      requires Valid()
      modifies this
      ensures Valid() && processing == old(processing) && ready == old(ready)
      ensures g !in old(configs) ==> reply == NothingToRemove && configs == old(configs) && stored == old(stored)
      ensures g in old(configs) ==>
                && reply == (if dbOk then RemovedConfig(old(configs)[g].roleId in env.roles) else RemoveFailed)
                && configs == (if dbOk then old(configs) - {g} else old(configs))
                && stored == (if dbOk then old(stored) - {g} else old(stored))
    {
      if g !in configs {
        return NothingToRemove;
      }
      var roleId := configs[g].roleId;
      var ok := DeleteConfig(g, dbOk);
      reply := if ok then RemovedConfig(roleId in env.roles) else RemoveFailed;
    }

    /** `/vc-role` with no parameter: show the configuration, dropping it if its role is gone. */
    method ViewBranch(g: int, env: GuildEnv, dbOk: bool) returns (reply: RoleReply)
      requires Valid()
      modifies this
      ensures Valid() && processing == old(processing) && ready == old(ready)
      ensures g !in old(configs) ==> reply == NothingConfigured
      ensures g in old(configs) && old(configs)[g].roleId in env.roles ==> reply == Shown
      ensures g in old(configs) && old(configs)[g].roleId !in env.roles ==>
                && reply == StaleRoleCleaned
                && configs == (if dbOk then old(configs) - {g} else old(configs))
                && stored == (if dbOk then old(stored) - {g} else old(stored))
      ensures reply != StaleRoleCleaned ==> configs == old(configs) && stored == old(stored)
    {
      if g !in configs {
        return NothingConfigured;
      }
      if configs[g].roleId in env.roles {
        return Shown;
      }
      var _ := DeleteConfig(g, dbOk);
      reply := StaleRoleCleaned;
    }

    /**
     * `/vc-role role:… log_channel:…`: merge, check the role and the log
     * channel, then `_save_config` (insert or replace the row) and, only
     * once that succeeds, the cache.
     */
    method UpdateBranch(g: int, role: Option<int>, log: Option<int>, env: GuildEnv, dbOk: bool)
      returns (reply: RoleReply)
      requires Valid()
      modifies this
      ensures Valid() && processing == old(processing) && ready == old(ready)
      ensures var current := if g in old(configs) then Some(old(configs)[g]) else None;
              var next := Merged(current, role, log);
              && (reply.Saved? <==>
                    next.Some? && next.value.roleId in env.roles && next.value.roleId in env.manageable
                    && (next.value.logChannel.Some? ==>
                          next.value.logChannel.value in env.textChannels && next.value.logChannel.value in env.loggable)
                    && dbOk)
              && (reply.Saved? ==>
                    && configs == old(configs)[g := next.value] && stored == old(stored)[g := next.value]
                    && reply.applied == AppliesToCurrent(current, role))
              && (reply == MustSpecifyRole <==> next.None?)
      ensures !reply.Saved? ==> configs == old(configs) && stored == old(stored)
      ensures reply.Saved? || reply in {MustSpecifyRole, RoleMissing, CannotManage, InvalidLogChannel, CannotLog, SaveFailed}
    {
      var current := if g in configs then Some(configs[g]) else None;
      var next := Merged(current, role, log);
      if next.None? {
        return MustSpecifyRole;
      }
      var c := next.value;
      if c.roleId !in env.roles {
        return RoleMissing;
      }
      if c.roleId !in env.manageable {
        return CannotManage;
      }
      if c.logChannel.Some? {
        if c.logChannel.value !in env.textChannels {
          return InvalidLogChannel;
        }
        if c.logChannel.value !in env.loggable {
          return CannotLog;
        }
      }
      if !dbOk {
        return SaveFailed;
      }
      stored := stored[g := c];
      configs := configs[g := c];
      reply := Saved(AppliesToCurrent(current, role));
    }

    /** `/vc-role`: administrators only; then remove, view or update. */
    method VcRole(g: int, admin: bool, role: Option<int>, log: Option<int>, remove: bool, env: GuildEnv, dbOk: bool)
      returns (reply: RoleReply)
      requires Valid()
      modifies this
      ensures Valid() && processing == old(processing) && ready == old(ready)
      ensures !admin ==> reply == NotAdministrator && configs == old(configs) && stored == old(stored)
      ensures reply.Saved? ==> admin && !remove && (role.Some? || log.Some?)
      ensures reply.RemovedConfig? ==> admin && remove && g !in configs
    {
      if !admin {
        return NotAdministrator;
      }
      if remove {
        reply := RemoveBranch(g, env, dbOk);
      } else if role.None? && log.None? {
        reply := ViewBranch(g, env, dbOk);
      } else {
        reply := UpdateBranch(g, role, log, env, dbOk);
      }
    }

    /**
     * `on_voice_state_update`: ignored before loading, for bots, for members
     * already being processed and for unconfigured guilds; a configuration
     * whose role is gone is dropped; otherwise the role is added iff the
     * member is in a voice channel without it and removed iff the member is
     * in none while holding it. The member leaves the processing set
     * afterwards, so the set is as before.
     */
    method OnVoiceStateUpdate(g: int, member: Member, inVc: bool, hasRole: bool, roles: set<int>,
                              dbOk: bool, outcome: nat -> Attempt) returns (action: VoiceAction)
      requires Valid()
      modifies this
      ensures Valid() && processing == old(processing) && ready == old(ready)
      ensures var live := ready && !member.bot && member.id !in processing && g in old(configs);
              && (action.RoleAdded? <==> live && old(configs)[g].roleId in roles && inVc && !hasRole)
              && (action.RoleRemoved? <==> live && old(configs)[g].roleId in roles && !inVc && hasRole)
              && (action == ConfigDropped <==> live && old(configs)[g].roleId !in roles)
              && (action == Skipped <==> !live)
      ensures action.RoleAdded? ==> action.add == Retried(outcome, 0, MaxRetries)
      ensures action.RoleRemoved? ==> action.remove == Retried(outcome, 0, MaxRetries)
      ensures action != ConfigDropped ==> configs == old(configs) && stored == old(stored)
      ensures action == ConfigDropped ==>
                configs == (if dbOk then old(configs) - {g} else old(configs))
                && stored == (if dbOk then old(stored) - {g} else old(stored))
    {
      if !ready || member.bot || member.id in processing || g !in configs {
        return Skipped;
      }
      if configs[g].roleId !in roles {
        var _ := DeleteConfig(g, dbOk);
        return ConfigDropped;
      }
      var r := RoleWithRetry(outcome, MaxRetries);
      processing := processing + {member.id};
      if inVc && !hasRole {
        action := RoleAdded(r);
      } else if !inVc && hasRole {
        action := RoleRemoved(r);
      } else {
        action := NoChange;
      }
      processing := processing - {member.id};
    }

    /** `on_guild_role_delete`: the configuration goes only when its own role is deleted. */
    method OnRoleDelete(g: int, roleId: int, dbOk: bool)
      requires Valid()
      modifies this
      ensures Valid() && processing == old(processing) && ready == old(ready)
      ensures configs == if g in old(configs) && old(configs)[g].roleId == roleId && dbOk
                         then old(configs) - {g} else old(configs)
      ensures stored == if g in old(configs) && old(configs)[g].roleId == roleId && dbOk
                        then old(stored) - {g} else old(stored)
    {
      if g in configs && configs[g].roleId == roleId {
        var _ := DeleteConfig(g, dbOk);
      }
    }

    /** `/vc-role-sync`: the sync plan of the configured role, after the same checks as the command. */
    method ManualSync(g: int, admin: bool, env: GuildEnv, vcMembers: seq<Member>, roleMembers: seq<Member>,
                      inGuild: set<int>, dbOk: bool) returns (reply: SyncReply)
      requires Valid()
      modifies this
      ensures Valid() && processing == old(processing) && ready == old(ready)
      ensures reply.Synced? <==>
                admin && g in old(configs) && old(configs)[g].roleId in env.roles && old(configs)[g].roleId in env.manageable
      ensures reply.Synced? ==> reply.plan == PlanSync(vcMembers, roleMembers, inGuild, processing)
      ensures reply != RoleGone ==> configs == old(configs) && stored == old(stored)
      ensures reply == RoleGone ==> configs == (if dbOk then old(configs) - {g} else old(configs))
      ensures reply == RoleGone ==> stored == (if dbOk then old(stored) - {g} else old(stored))
    {
      if !admin {
        return SyncNotAdministrator;
      }
      if g !in configs {
        return NoConfig;
      }
      var roleId := configs[g].roleId;
      if roleId !in env.roles {
        var _ := DeleteConfig(g, dbOk);
        return RoleGone;
      }
      if roleId !in env.manageable {
        return NoPermission;
      }
      reply := Synced(PlanSync(vcMembers, roleMembers, inGuild, processing));
    }

    /**
     * `check_role_validity`: every configuration whose guild or role no
     * longer exists is deleted in one batch; on an error nothing changes.
     * Afterwards every remaining configuration is valid.
     */
    method CheckRoleValidity(present: map<int, set<int>>, dbOk: bool)
      requires Valid()
      modifies this
      ensures Valid() && processing == old(processing) && ready == old(ready)
      ensures var bad := Invalid(old(configs), present);
              && configs == (if ready && bad != {} && dbOk then old(configs) - bad else old(configs))
              && stored == (if ready && bad != {} && dbOk then old(stored) - bad else old(stored))
      ensures ready && dbOk ==> forall g :: g in configs ==> StillValid(g, configs[g], present)
    {
      if !ready {
        return;
      }
      var bad := Invalid(configs, present);
      if bad != {} && dbOk {
        stored := stored - bad;
        configs := configs - bad;
      }
    }
  }
}
