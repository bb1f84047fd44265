/**
 * The quarantine (mute) system: duration parsing, per-guild case numbers,
 * the role-hierarchy checks, the permission-overwrite sweep, the `qmute` and
 * `qunmute` commands, the auto-unmute tick and the persisted DM deletions.
 *
 * Discord and MongoDB are not modelled: every call whose outcome the code
 * reacts to is an input (a `RoleCall`, an `Attempt` function, a flag saying
 * whether a write went through), and the collections the cog writes live in
 * the `MuteDb` class.
 */
module Quarantine {
  import opened Common

  /** `reason[:2000]` when a mute document is written. */
  const MaxReasonLength: nat := 2000
  /** A duration in days above this is refused. */
  const MaxDays: nat := 365
  /** A DM announcing a mute is deleted after ten minutes. */
  const DmLifetime: int := 600
  /** The default `max_retries` of the overwrite sweep. */
  const SweepRetries: nat := 3

  // ---------------------------------------------------------------------
  // Durations
  // ---------------------------------------------------------------------

  predicate IsMuteUnit(c: char) { c == 's' || c == 'm' || c == 'h' || c == 'd' }

  function UnitSeconds(u: char): (r: nat)
    requires IsMuteUnit(u)
    ensures r > 0
  {
    match u
    case 's' => 1
    case 'm' => 60
    case 'h' => 3600
    case 'd' => 86400
  }

  /** What a pattern ending in `$` must cover: `$` also matches before one final newline. */
  function BeforeFinalNewline(s: string): (r: string)
    ensures r == s || r + "\n" == s
  {
    if |s| > 0 && s[|s| - 1] == '\n' then s[..|s| - 1] else s
  }

  /** The two groups of `^(\d+)([smhd])$` matched against `s`, with the digits' value. */
  function DurationGroups(s: string): (r: Option<(nat, char)>)
    ensures r.Some? ==> IsMuteUnit(r.value.1)
    ensures r.Some? ==> (exists digits :: IsDigitString(digits)
                           && (s == digits + [r.value.1] || s == digits + [r.value.1] + "\n")
                           && r.value.0 == DigitsValue(digits))
  {
    var b := BeforeFinalNewline(s);
    if |b| >= 2 && AllDigits(b[..|b| - 1]) && IsMuteUnit(b[|b| - 1]) then
      assert b == b[..|b| - 1] + [b[|b| - 1]];
      Some((DigitsValue(b[..|b| - 1]), b[|b| - 1]))
    else None
  }

  lemma DurationGroupsOf(n: nat, u: char)
    requires IsMuteUnit(u)
    ensures DurationGroups(NatToString(n) + [u]) == Some((n, u))
    ensures DurationGroups(NatToString(n) + [u] + "\n") == Some((n, u))
  {
    var d := NatToString(n);
    NatToStringRoundTrip(n);
    var b := d + [u];
    assert b[..|b| - 1] == d;
    assert BeforeFinalNewline(b) == b;
    var t := b + "\n";
    assert t[..|t| - 1] == b;
    assert BeforeFinalNewline(t) == b;
  }

  /** `parse_duration`: a positive amount of seconds, minutes, hours or at most 365 days. */
  function ParseDuration(s: string): (r: Option<nat>)
    ensures r.Some? <==> DurationGroups(s).Some? && DurationGroups(s).value.0 > 0
                         && !(DurationGroups(s).value.1 == 'd' && DurationGroups(s).value.0 > MaxDays)
    ensures r.Some? ==> r.value > 0
    ensures r.Some? ==> r.value == DurationGroups(s).value.0 * UnitSeconds(DurationGroups(s).value.1)
  {
    match DurationGroups(s)
    case None => None
    case Some((v, u)) =>
      if v <= 0 then None
      else if u == 'd' && v > MaxDays then None
      else Some(v * UnitSeconds(u))
  }

  /** Writing a duration out and parsing it back gives its length in seconds, within the bounds. */
  lemma ParseDurationRoundTrip(n: nat, u: char)
    requires IsMuteUnit(u)
    ensures ParseDuration(NatToString(n) + [u]) ==
            (if n == 0 || (u == 'd' && n > MaxDays) then None else Some(n * UnitSeconds(u)))
  {
    DurationGroupsOf(n, u);
  }

  /** The longest duration accepted is 365 days. */
  lemma ParseDurationBounded(s: string)
    requires ParseDuration(s).Some?
    ensures ParseDuration(s).value <= MaxDays * 86400 || DurationGroups(s).value.1 != 'd'
  {
  }

  /** The legacy cog's `parse_duration`: the same pattern and units, no bounds. */
  function LegacyParseDuration(s: string): (r: Option<nat>)
    ensures r.Some? <==> DurationGroups(s).Some?
  {
    match DurationGroups(s)
    case None => None
    case Some((v, u)) => Some(v * UnitSeconds(u))
  }

  /** Where the bounded parser accepts, the legacy one agrees; the legacy one alone accepts zero. */
  lemma LegacyParseAgrees(s: string)
    ensures ParseDuration(s).Some? ==> LegacyParseDuration(s) == ParseDuration(s)
    ensures LegacyParseDuration(s) == Some(0) ==> ParseDuration(s).None?
  {
  }

  lemma LegacyAcceptsZero()
    ensures LegacyParseDuration("0s") == Some(0)
    ensures ParseDuration("0s") == None
  {
    DurationGroupsOf(0, 's');
    assert NatToString(0) + ['s'] == "0s";
  }

  // ---------------------------------------------------------------------
  // Guild model
  // ---------------------------------------------------------------------

  /** The bot's member in a guild: its top role position and two guild permissions. */
  datatype BotMe = BotMe(topRole: int, manageRoles: bool, manageChannels: bool)

  /** A guild member as the commands see it; `topRole` is the position of its highest role. */
  datatype Member = Member(id: int, isBot: bool, admin: bool, topRole: int, roles: set<int>)

  datatype ChannelKind = CategoryKind | TextKind | VoiceKind | StageKind | ForumKind | OtherKind

  datatype Channel = Channel(id: int, name: string, kind: ChannelKind)

  /** A guild: its owner, the bot's member (absent when not cached), role positions, channels. */
  datatype Guild = Guild(id: int, ownerId: int, me: Option<BotMe>, roles: map<int, int>, channels: seq<Channel>)

  /** The configuration `/setup-mute` stores per guild. */
  datatype GuildConfig = GuildConfig(mutedRoleId: Option<int>, jailChannelId: Option<int>,
                                     logChannelId: Option<int>, modRoleId: Option<int>)

  datatype Verdict = Allowed | Refused(why: HierarchyBlock)

  datatype HierarchyBlock = BotAbsent | NoManageRoles | TargetIsOwner | TargetNotBelowBot | TargetNotBelowActor

  predicate HasRole(guild: Guild, id: Option<int>) { id.Some? && id.value in guild.roles }

  predicate HasChannel(guild: Guild, id: Option<int>)
  {
    id.Some? && exists i :: 0 <= i < |guild.channels| && guild.channels[i].id == id.value
  }

  /** Administrators, and holders of the configured moderator role, may use the commands. */
  predicate MayModerate(cfg: GuildConfig, guild: Guild, author: Member)
  {
    author.admin || (HasRole(guild, cfg.modRoleId) && cfg.modRoleId.value in author.roles)
  }

  /** `_can_manage_member`: the bot may change a member's roles. */
  function CanManageMember(guild: Guild, target: Member): (v: Verdict)
    ensures v.Allowed? <==> guild.me.Some? && guild.me.value.manageRoles
                            && target.id != guild.ownerId && target.topRole < guild.me.value.topRole
  {
    if guild.me.None? then Refused(BotAbsent)
    else if !guild.me.value.manageRoles then Refused(NoManageRoles)
    else if target.id == guild.ownerId then Refused(TargetIsOwner)
    else if target.topRole >= guild.me.value.topRole then Refused(TargetNotBelowBot)
    else Allowed
  }

  /** `_actor_can_target`: the owner may act on anyone, others only strictly below themselves. */
  function ActorCanTarget(guild: Guild, actor: Member, target: Member): (v: Verdict)
    ensures v.Allowed? <==> actor.id == guild.ownerId
                            || (target.id != guild.ownerId && target.topRole < actor.topRole)
  {
    if actor.id == guild.ownerId then Allowed
    else if target.id == guild.ownerId then Refused(TargetIsOwner)
    else if target.topRole >= actor.topRole then Refused(TargetNotBelowActor)
    else Allowed
  }

  /** Nobody but the owner passes the actor check against themselves. */
  lemma ActorCannotTargetSelf(guild: Guild, m: Member)
    requires m.id != guild.ownerId
    ensures ActorCanTarget(guild, m, m).Refused?
  {
  }

  /** Two members who are not the owner can never both act on each other. */
  lemma ActorCheckAntisymmetric(guild: Guild, a: Member, b: Member)
    requires a.id != guild.ownerId && b.id != guild.ownerId
    ensures !(ActorCanTarget(guild, a, b).Allowed? && ActorCanTarget(guild, b, a).Allowed?)
  {
  }

  /** The owner can never be muted by the bot. */
  lemma OwnerNeverManageable(guild: Guild, target: Member)
    requires target.id == guild.ownerId
    ensures CanManageMember(guild, target).Refused?
  {
  }

  // ---------------------------------------------------------------------
  // Overwrite sweep
  // ---------------------------------------------------------------------

  /** The result of one `set_permissions` call. */
  datatype Attempt = Applied | HttpError | OtherError

  /** The overwrite the sweep gives the Muted role on a channel. */
  datatype Overwrite = JailAllow | HideDeny

  datatype Write = Write(channel: Channel, overwrite: Overwrite)

  datatype OverwriteBlock = NoBotMember | NoManageChannels

  datatype SweepResult = Blocked(block: OverwriteBlock) | Swept(writes: seq<Write>, failed: seq<Channel>)

  /** `_has_overwrite_perms`. */
  function OverwriteBlocker(me: Option<BotMe>): (r: Option<OverwriteBlock>)
    ensures r.None? <==> me.Some? && me.value.manageChannels
  {
    if me.None? then Some(NoBotMember)
    else if !me.value.manageChannels then Some(NoManageChannels)
    else None
  }

  predicate IsCategory(c: Channel) { c.kind == CategoryKind }

  predicate IsLeaf(c: Channel)
  {
    c.kind == TextKind || c.kind == VoiceKind || c.kind == StageKind || c.kind == ForumKind
  }

  /** Open in the jail channel, hidden everywhere else. */
  function OverwriteFor(c: Channel, jailId: int): Overwrite
  {
    if c.id == jailId then JailAllow else HideDeny
  }

  /** `apply_one` succeeds from attempt `a` on: an attempt applies after only HTTP errors before it. */
  function Succeeds(outcome: (int, nat) -> Attempt, id: int, a: nat, max: nat): bool
    decreases max + 1 - a
  {
    if a > max then false
    else match outcome(id, a)
      case Applied => true
      case HttpError => Succeeds(outcome, id, a + 1, max)
      case OtherError => false
  }

  lemma {:induction false} SucceedsIff(outcome: (int, nat) -> Attempt, id: int, a: nat, max: nat)
    ensures Succeeds(outcome, id, a, max) <==>
            exists k :: a <= k <= max && outcome(id, k) == Applied
                        && forall j :: a <= j < k ==> outcome(id, j) == HttpError
    decreases max + 1 - a
  {
    if a <= max {
      SucceedsIff(outcome, id, a + 1, max);
      if outcome(id, a) == HttpError && Succeeds(outcome, id, a, max) {
        var k :| a + 1 <= k <= max && outcome(id, k) == Applied
                 && forall j :: a + 1 <= j < k ==> outcome(id, j) == HttpError;
        assert forall j :: a <= j < k ==> outcome(id, j) == HttpError;
      }
      if !Succeeds(outcome, id, a, max) && outcome(id, a) == HttpError {
        forall k | a <= k <= max && outcome(id, k) == Applied
          ensures exists j :: a <= j < k && outcome(id, j) != HttpError
        {
          assert k != a;
          assert !forall j :: a + 1 <= j < k ==> outcome(id, j) == HttpError;
        }
      }
    }
  }

  function Succeeding(outcome: (int, nat) -> Attempt, max: nat): Channel -> bool
  {
    (c: Channel) => Succeeds(outcome, c.id, 1, max)
  }

  function Failing(outcome: (int, nat) -> Attempt, max: nat): Channel -> bool
  {
    (c: Channel) => !Succeeds(outcome, c.id, 1, max)
  }

  function WritesTo(cs: seq<Channel>, jailId: int): (r: seq<Write>)
    ensures |r| == |cs|
    ensures forall i :: 0 <= i < |cs| ==> r[i] == Write(cs[i], OverwriteFor(cs[i], jailId))
  {
    if cs == [] then [] else [Write(cs[0], OverwriteFor(cs[0], jailId))] + WritesTo(cs[1..], jailId)
  }

  lemma {:induction false} WritesToSnoc(cs: seq<Channel>, c: Channel, jailId: int)
    ensures WritesTo(cs + [c], jailId) == WritesTo(cs, jailId) + [Write(c, OverwriteFor(c, jailId))]
  {
  }

  lemma {:induction false} WritesToConcat(a: seq<Channel>, b: seq<Channel>, jailId: int)
    ensures WritesTo(a + b, jailId) == WritesTo(a, jailId) + WritesTo(b, jailId)
  {
  }

  /** What the sweep writes and which channels it reports, categories before leaf channels. */
  function SweepOutcome(channels: seq<Channel>, jailId: int, max: nat, outcome: (int, nat) -> Attempt): (r: SweepResult)
    ensures r.Swept?
    ensures forall c :: c in r.failed ==> c in channels && (IsCategory(c) || IsLeaf(c)) && !Succeeds(outcome, c.id, 1, max)
  {
    var cats := Filter(channels, IsCategory);
    var leaves := Filter(channels, IsLeaf);
    Swept(WritesTo(Filter(cats, Succeeding(outcome, max)), jailId) + WritesTo(Filter(leaves, Succeeding(outcome, max)), jailId),
          Filter(cats, Failing(outcome, max)) + Filter(leaves, Failing(outcome, max)))
  }

  /** `apply_one`: up to `max` attempts, retrying only after an HTTP error. */
  method ApplyOne(c: Channel, max: nat, outcome: (int, nat) -> Attempt) returns (ok: bool)
    ensures ok == Succeeds(outcome, c.id, 1, max)
  {
    var attempt := 1;
    while attempt <= max
      invariant 1 <= attempt
      invariant Succeeds(outcome, c.id, 1, max) == Succeeds(outcome, c.id, attempt, max)
      decreases max + 1 - attempt
    {
      var a := outcome(c.id, attempt);
      if a == Applied {
        return true;
      }
      if a == OtherError {
        break;
      }
      attempt := attempt + 1;
    }
    ok := false;
  }

  /** One of the sweep's two passes over a list of channels. */
  method SweepPass(cs: seq<Channel>, jailId: int, max: nat, outcome: (int, nat) -> Attempt)
    returns (writes: seq<Write>, failed: seq<Channel>)
    ensures writes == WritesTo(Filter(cs, Succeeding(outcome, max)), jailId)
    ensures failed == Filter(cs, Failing(outcome, max))
  {
    writes, failed := [], [];
    ghost var done: seq<Channel> := [];
    for i := 0 to |cs|
      invariant done == Filter(cs[..i], Succeeding(outcome, max))
      invariant writes == WritesTo(done, jailId)
      invariant failed == Filter(cs[..i], Failing(outcome, max))
    {
      var c := cs[i];
      var ok := ApplyOne(c, max, outcome);
      assert cs[..i + 1] == cs[..i] + [c];
      FilterSnoc(cs[..i], c, Succeeding(outcome, max));
      FilterSnoc(cs[..i], c, Failing(outcome, max));
      if ok {
        WritesToSnoc(done, c, jailId);
        writes := writes + [Write(c, OverwriteFor(c, jailId))];
        done := done + [c];
      } else {
        failed := failed + [c];
      }
    }
    assert cs[..|cs|] == cs;
  }

  /** `_apply_muted_overwrites`: nothing without Manage Channels, else categories then leaves. */
  method OverwriteSweep(guild: Guild, jailId: int, max: nat, outcome: (int, nat) -> Attempt)
    returns (r: SweepResult)
    ensures OverwriteBlocker(guild.me).Some? ==> r == Blocked(OverwriteBlocker(guild.me).value)
    ensures OverwriteBlocker(guild.me).None? ==> r == SweepOutcome(guild.channels, jailId, max, outcome)
  {
    var blocker := OverwriteBlocker(guild.me);
    if blocker.Some? {
      return Blocked(blocker.value);
    }
    var categories := Filter(guild.channels, IsCategory);
    var others := Filter(guild.channels, IsLeaf);
    var w1, f1 := SweepPass(categories, jailId, max, outcome);
    var w2, f2 := SweepPass(others, jailId, max, outcome);
    r := Swept(w1 + w2, f1 + f2);
  }

  /** Every write on a category comes before every write on a leaf channel. */
  lemma SweepCategoriesFirst(channels: seq<Channel>, jailId: int, max: nat, outcome: (int, nat) -> Attempt)
    ensures var w := SweepOutcome(channels, jailId, max, outcome).writes;
            forall i, j :: 0 <= i < j < |w| && IsLeaf(w[i].channel) ==> IsLeaf(w[j].channel)
  {
    var cats := Filter(Filter(channels, IsCategory), Succeeding(outcome, max));
    var leaves := Filter(Filter(channels, IsLeaf), Succeeding(outcome, max));
    var w := WritesTo(cats, jailId) + WritesTo(leaves, jailId);
    forall i | 0 <= i < |cats| ensures IsCategory(cats[i]) {
      assert cats[i] in cats;
    }
    forall i, j | 0 <= i < j < |w| && IsLeaf(w[i].channel)
      ensures IsLeaf(w[j].channel)
    {
      if j >= |cats| {
        assert leaves[j - |cats|] in leaves;
      }
    }
  }

  /** Every channel written is a category or a leaf, the jail opens and the rest are hidden. */
  lemma SweepWritesOverwrites(channels: seq<Channel>, jailId: int, max: nat, outcome: (int, nat) -> Attempt, k: nat)
    requires k < |SweepOutcome(channels, jailId, max, outcome).writes|
    ensures var w := SweepOutcome(channels, jailId, max, outcome).writes[k];
            w.channel in channels && (IsCategory(w.channel) || IsLeaf(w.channel))
            && (w.overwrite == JailAllow <==> w.channel.id == jailId)
            && Succeeds(outcome, w.channel.id, 1, max)
  {
    var cats := Filter(Filter(channels, IsCategory), Succeeding(outcome, max));
    var leaves := Filter(Filter(channels, IsLeaf), Succeeding(outcome, max));
    if k < |cats| {
      assert cats[k] in cats;
    } else {
      assert leaves[k - |cats|] in leaves;
    }
  }

  /** A category or leaf channel is reported as failed exactly when no attempt applied. */
  lemma SweepFailedIff(channels: seq<Channel>, jailId: int, max: nat, outcome: (int, nat) -> Attempt, c: Channel)
    requires c in channels && (IsCategory(c) || IsLeaf(c))
    ensures c in SweepOutcome(channels, jailId, max, outcome).failed <==>
            forall k :: 1 <= k <= max && outcome(c.id, k) == Applied ==>
                        exists j :: 1 <= j < k && outcome(c.id, j) != HttpError
  {
    SucceedsIff(outcome, c.id, 1, max);
  }

  /** The legacy cog's retry (at most one retry after an HTTP error) is the sweep's rule with two attempts. */
  lemma LegacyRetryIsTwoAttempts(outcome: (int, nat) -> Attempt, id: int)
    ensures Succeeds(outcome, id, 1, 2) <==>
            outcome(id, 1) == Applied || (outcome(id, 1) == HttpError && outcome(id, 2) == Applied)
  {
  }

  // ---------------------------------------------------------------------
  // Stored documents
  // ---------------------------------------------------------------------

  /** A document of the `mutes` collection. */
  datatype MuteDoc = MuteDoc(guildId: int, userId: int, mutedBy: int, reason: string, mutedAt: int,
                             active: bool, caseId: nat, silent: bool, expiresAt: Option<int>,
                             unmutedAt: Option<int>, unmutedBy: Option<int>, unmuteReason: Option<string>)

  /** A document of `pending_dm_deletes`; `id` stands for the ObjectId. */
  datatype PendingDelete = PendingDelete(id: nat, guildId: int, userId: Option<int>,
                                         dmMessageId: Option<int>, expiresAt: Option<int>)

  predicate ActiveFor(d: MuteDoc, g: int, u: int) { d.active && d.guildId == g && d.userId == u }

  predicate HasActive(m: seq<MuteDoc>, g: int, u: int)
  {
    exists i :: 0 <= i < |m| && ActiveFor(m[i], g, u)
  }

  /** At most one active mute per member of a guild. */
  predicate NotBothActive(a: MuteDoc, b: MuteDoc)
  {
    !(a.active && b.active) || a.guildId != b.guildId || a.userId != b.userId
  }

  predicate OneActive(m: seq<MuteDoc>)
  {
    forall i, j {:trigger NotBothActive(m[i], m[j])} :: 0 <= i < j < |m| ==> NotBothActive(m[i], m[j])
  }

  predicate CaseCounted(d: MuteDoc, counters: map<int, nat>)
  {
    d.guildId in counters && d.caseId <= counters[d.guildId]
  }

  /** Every case number was handed out by its guild's counter. */
  predicate CasesCounted(m: seq<MuteDoc>, counters: map<int, nat>)
  {
    forall i {:trigger CaseCounted(m[i], counters)} :: 0 <= i < |m| ==> CaseCounted(m[i], counters)
  }

  predicate DistinctCases(a: MuteDoc, b: MuteDoc)
  {
    a.guildId != b.guildId || a.caseId != b.caseId
  }

  /** Case numbers are unique within a guild. */
  predicate CasesUnique(m: seq<MuteDoc>)
  {
    forall i, j {:trigger DistinctCases(m[i], m[j])} :: 0 <= i < j < |m| ==> DistinctCases(m[i], m[j])
  }

  predicate MutesOk(m: seq<MuteDoc>, counters: map<int, nat>)
  {
    OneActive(m) && CasesCounted(m, counters) && CasesUnique(m)
  }

  predicate IdsUnique(p: seq<PendingDelete>)
  {
    forall i, j :: 0 <= i < j < |p| ==> p[i].id != p[j].id
  }

  predicate PendingOk(p: seq<PendingDelete>, serial: nat)
  {
    (forall i :: 0 <= i < |p| ==> p[i].id < serial) && IdsUnique(p)
  }

  /** The value a guild's counter takes on the next `$inc` with upsert. */
  function Bumped(counters: map<int, nat>, g: int): (c: nat)
    ensures c >= 1
    ensures g in counters ==> c == counters[g] + 1
  {
    (if g in counters then counters[g] else 0) + 1
  }

  /** The index of the document `find_one` returns for the active mute of a member. */
  function FirstActive(m: seq<MuteDoc>, g: int, u: int): (r: Option<nat>)
    ensures r.None? <==> !HasActive(m, g, u)
    ensures r.Some? ==> r.value < |m| && ActiveFor(m[r.value], g, u)
                        && forall j :: 0 <= j < r.value ==> !ActiveFor(m[j], g, u)
  {
    if m == [] then None
    else if ActiveFor(m[0], g, u) then Some(0)
    else
      var rest := FirstActive(m[1..], g, u);
      assert forall j :: 0 < j < |m| ==> m[j] == m[1..][j - 1];
      if rest.None? then None else Some(rest.value + 1)
  }

  /** The fields `update_many` sets when a mute ends; `note` is written when present. */
  function Closed(d: MuteDoc, at: int, who: Option<int>, note: Option<string>): MuteDoc
  {
    d.(active := false, unmutedAt := Some(at), unmutedBy := who,
       unmuteReason := if note.Some? then note else d.unmuteReason)
  }

  /** `update_many` over the active mutes of one member. */
  function DeactivateAll(m: seq<MuteDoc>, g: int, u: int, at: int, who: Option<int>, note: Option<string>): seq<MuteDoc>
  {
    seq(|m|, i requires 0 <= i < |m| => if ActiveFor(m[i], g, u) then Closed(m[i], at, who, note) else m[i])
  }

  /** After the update the member has no active mute; nobody else's mutes changed. */
  lemma DeactivateAllEffect(m: seq<MuteDoc>, g: int, u: int, at: int, who: Option<int>, note: Option<string>)
    ensures !HasActive(DeactivateAll(m, g, u, at, who, note), g, u)
    ensures forall g2, u2 :: g2 != g || u2 != u ==>
              HasActive(DeactivateAll(m, g, u, at, who, note), g2, u2) == HasActive(m, g2, u2)
    ensures forall i :: 0 <= i < |m| && ActiveFor(m[i], g, u) ==>
              DeactivateAll(m, g, u, at, who, note)[i].unmutedBy == who
  {
    var r := DeactivateAll(m, g, u, at, who, note);
    forall g2, u2 | g2 != g || u2 != u
      ensures HasActive(r, g2, u2) == HasActive(m, g2, u2)
    {
      if HasActive(m, g2, u2) {
        var i :| 0 <= i < |m| && ActiveFor(m[i], g2, u2);
        assert ActiveFor(r[i], g2, u2);
      }
    }
  }

  /** A pointwise rewrite that keeps each mute's identity and never reactivates one keeps the invariant. */
  lemma ClosingOk(m: seq<MuteDoc>, m2: seq<MuteDoc>, counters: map<int, nat>)
    requires MutesOk(m, counters) && |m2| == |m|
    requires forall i :: 0 <= i < |m| ==> m2[i].guildId == m[i].guildId && m2[i].userId == m[i].userId
                                          && m2[i].caseId == m[i].caseId && (m2[i].active ==> m[i].active)
    ensures MutesOk(m2, counters)
  {
    forall i, j | 0 <= i < j < |m2| ensures NotBothActive(m2[i], m2[j]) && DistinctCases(m2[i], m2[j]) {
      assert NotBothActive(m[i], m[j]) && DistinctCases(m[i], m[j]);
    }
    forall i | 0 <= i < |m2| ensures CaseCounted(m2[i], counters) {
      assert CaseCounted(m[i], counters);
    }
  }

  lemma DeactivateAllOk(m: seq<MuteDoc>, counters: map<int, nat>, g: int, u: int, at: int, who: Option<int>, note: Option<string>)
    requires MutesOk(m, counters)
    ensures MutesOk(DeactivateAll(m, g, u, at, who, note), counters)
  {
    ClosingOk(m, DeactivateAll(m, g, u, at, who, note), counters);
  }

  lemma BumpOk(m: seq<MuteDoc>, counters: map<int, nat>, g: int)
    requires MutesOk(m, counters)
    ensures MutesOk(m, counters[g := Bumped(counters, g)])
  {
    var c2 := counters[g := Bumped(counters, g)];
    forall i | 0 <= i < |m| ensures CaseCounted(m[i], c2) {
      assert CaseCounted(m[i], counters);
    }
  }

  /** A new document with the counter's fresh value, for a member without an active mute, keeps the invariant. */
  lemma AppendMuteOk(m: seq<MuteDoc>, counters: map<int, nat>, d: MuteDoc)
    requires MutesOk(m, counters)
    requires d.caseId == Bumped(counters, d.guildId)
    requires !HasActive(m, d.guildId, d.userId)
    ensures MutesOk(m + [d], counters[d.guildId := d.caseId])
  {
    var m2 := m + [d];
    var c2 := counters[d.guildId := d.caseId];
    forall i | 0 <= i < |m2| ensures CaseCounted(m2[i], c2) {
      if i < |m| {
        assert CaseCounted(m[i], counters);
      }
    }
    forall i, j | 0 <= i < j < |m2| ensures NotBothActive(m2[i], m2[j]) && DistinctCases(m2[i], m2[j]) {
      if j < |m| {
        assert NotBothActive(m[i], m[j]) && DistinctCases(m[i], m[j]);
      } else {
        assert !ActiveFor(m[i], d.guildId, d.userId);
        assert CaseCounted(m[i], counters);
      }
    }
  }

  lemma AppendPendingOk(p: seq<PendingDelete>, serial: nat, d: PendingDelete)
    requires PendingOk(p, serial) && d.id == serial
    ensures PendingOk(p + [d], serial + 1)
  {
  }

  lemma {:induction false} FilterIdsUnique(p: seq<PendingDelete>, keep: PendingDelete -> bool)
    requires IdsUnique(p)
    ensures IdsUnique(Filter(p, keep))
  {
    if p != [] {
      FilterIdsUnique(p[1..], keep);
      var rest := Filter(p[1..], keep);
      if keep(p[0]) {
        forall j | 0 <= j < |rest| ensures rest[j].id != p[0].id {
          assert rest[j] in p[1..];
        }
        assert Filter(p, keep) == [p[0]] + rest;
      }
    }
  }

  lemma FilterPendingOk(p: seq<PendingDelete>, serial: nat, keep: PendingDelete -> bool)
    requires PendingOk(p, serial)
    ensures PendingOk(Filter(p, keep), serial)
  {
    FilterIdsUnique(p, keep);
    var f := Filter(p, keep);
    forall i | 0 <= i < |f| ensures f[i].id < serial {
      assert f[i] in p;
    }
  }

  // ---------------------------------------------------------------------
  // Command arguments
  // ---------------------------------------------------------------------

  const DefaultReason: string := "No reason provided"
  const SilentFlag: string := "--silent"

  /** `qmute`'s arguments once a leading `--silent` is taken off. */
  function AfterFlag(args: seq<string>): seq<string>
  {
    if |args| > 0 && args[0] == SilentFlag then args[1..] else args
  }

  /** What is left of the arguments once `--silent`, if present, is taken off. */
  lemma FlagThenWords(silent: bool, w: string, words: seq<string>)
    requires w != SilentFlag
    ensures var args := (if silent then [SilentFlag] else []) + [w] + words;
            AfterFlag(args) == [w] + words && (|args| > 0 && args[0] == SilentFlag <==> silent)
            && ([w] + words)[0] == w && ([w] + words)[1..] == words
  {
    var args := (if silent then [SilentFlag] else []) + [w] + words;
    if silent {
      assert args[1..] == [w] + words;
    }
  }

  /** `qmute`'s trailing arguments: a leading `--silent`, then an optional duration, then the reason. */
  datatype MuteArgs = MuteArgs(silent: bool, duration: Option<nat>, reason: string)

  function ParseMuteArgs(args: seq<string>): (a: MuteArgs)
    ensures a.silent <==> |args| > 0 && args[0] == SilentFlag
    ensures a.duration.Some? ==> a.duration.value > 0
  {
    var silent := |args| > 0 && args[0] == SilentFlag;
    var rest := AfterFlag(args);
    if rest == [] then MuteArgs(silent, None, DefaultReason)
    else match ParseDuration(rest[0])
      case Some(d) => MuteArgs(silent, Some(d), if |rest| > 1 then Join(" ", rest[1..]) else DefaultReason)
      case None => MuteArgs(silent, None, Join(" ", rest))
  }

  /** A flag, a duration and words come back as silence, the duration in seconds and the joined words. */
  lemma ParseMuteArgsRoundTrip(silent: bool, n: nat, u: char, words: seq<string>)
    requires IsMuteUnit(u) && 0 < n && !(u == 'd' && n > MaxDays)
    ensures ParseMuteArgs((if silent then [SilentFlag] else []) + [NatToString(n) + [u]] + words) ==
            MuteArgs(silent, Some(n * UnitSeconds(u)), if words == [] then DefaultReason else Join(" ", words))
  {
    var w := NatToString(n) + [u];
    ParseDurationRoundTrip(n, u);
    assert w != SilentFlag by {
      assert w[0] == NatToString(n)[0];
    }
    FlagThenWords(silent, w, words);
    assert |[w] + words| > 1 <==> words != [];
  }

  /** Without a duration every argument after the flag is the reason. */
  lemma ParseMuteArgsReasonOnly(silent: bool, words: seq<string>)
    requires words != [] && ParseDuration(words[0]).None?
    requires !silent ==> words[0] != SilentFlag
    ensures ParseMuteArgs((if silent then [SilentFlag] else []) + words) == MuteArgs(silent, None, Join(" ", words))
  {
    var args := (if silent then [SilentFlag] else []) + words;
    if silent {
      assert args[1..] == words;
    }
    assert AfterFlag(args) == words;
  }

  /** The document `qmute` writes. */
  function NewMute(g: int, u: int, moderator: int, a: MuteArgs, now: int, c: nat): (d: MuteDoc)
    ensures d.active && d.guildId == g && d.userId == u && d.caseId == c
    ensures |d.reason| <= MaxReasonLength && |d.reason| <= |a.reason| && d.reason == a.reason[..|d.reason|]
    ensures |a.reason| <= MaxReasonLength ==> d.reason == a.reason
    ensures d.expiresAt.Some? <==> a.duration.Some?
    ensures a.duration.Some? ==> d.expiresAt == Some(now + a.duration.value)
  {
    MuteDoc(g, u, moderator, Take(a.reason, MaxReasonLength), now, true, c, a.silent,
            if a.duration.Some? then Some(now + a.duration.value) else None, None, None, None)
  }

  // ---------------------------------------------------------------------
  // Command outcomes
  // ---------------------------------------------------------------------

  /** How an `add_roles`/`remove_roles` call ended. */
  datatype RoleCall = RoleOk | RoleForbidden | RoleHttp | RoleOther

  datatype MuteRefusal =
    | NotConfigured | NoPermission | SelfTarget | BotItself | TargetIsBot
    | ActorBlocked(actorWhy: HierarchyBlock) | BotBlocked(botWhy: HierarchyBlock)
    | AlreadyMuted | ConfigIncomplete | MutedRoleTooHigh | AddRoleFailed(call: RoleCall)

  datatype MuteReply = Muted(caseId: nat, dmSent: bool) | Rejected(refusal: MuteRefusal)

  /**
   * What Discord and MongoDB do during one `qmute`: the `add_roles` outcome,
   * the sweep's attempts, which counter path runs, whether the insert
   * succeeds, the id of the DM sent (none when sending fails), and whether
   * the pending deletion is stored.
   */
  datatype MuteEnv = MuteEnv(addRole: RoleCall, sweep: (int, nat) -> Attempt, atomicCounter: bool,
                             insertOk: bool, dm: Option<int>, pendingInsertOk: bool)

  datatype UnmuteRefusal = UnmuteNotConfigured | UnmuteNoPermission | SelfUnmute
                         | UnmuteActorBlocked(why: HierarchyBlock) | MutedRoleMissing | NotMuted

  datatype UnmuteReply = Unmuted(caseId: nat) | UnmuteRejected(refusal: UnmuteRefusal)

  function ConfigOf(configs: map<int, GuildConfig>, g: int): Option<GuildConfig>
  {
    if g in configs then Some(configs[g]) else None
  }

  predicate ConfigComplete(cfg: GuildConfig, guild: Guild)
  {
    HasRole(guild, cfg.mutedRoleId) && HasChannel(guild, cfg.jailChannelId) && HasChannel(guild, cfg.logChannelId)
  }

  predicate MutedRoleBelowBot(cfg: GuildConfig, guild: Guild)
  {
    HasRole(guild, cfg.mutedRoleId) && guild.me.Some? && guild.roles[cfg.mutedRoleId.value] < guild.me.value.topRole
  }

  /** Every check `qmute` makes before touching roles passes. */
  predicate MutePermitted(cfg: Option<GuildConfig>, guild: Guild, author: Member, target: Member,
                          botUserId: int, m: seq<MuteDoc>)
  {
    && cfg.Some? && MayModerate(cfg.value, guild, author)
    && target.id != author.id && target.id != botUserId && !target.isBot
    && ActorCanTarget(guild, author, target).Allowed? && CanManageMember(guild, target).Allowed?
    && !HasActive(m, guild.id, target.id)
    && ConfigComplete(cfg.value, guild) && MutedRoleBelowBot(cfg.value, guild)
  }

  /** Every check `qunmute` makes passes. */
  predicate UnmutePermitted(cfg: Option<GuildConfig>, guild: Guild, author: Member, target: Member, m: seq<MuteDoc>)
  {
    && cfg.Some? && MayModerate(cfg.value, guild, author)
    && (target.id != author.id || author.admin)
    && ActorCanTarget(guild, author, target).Allowed?
    && HasRole(guild, cfg.value.mutedRoleId)
    && HasActive(m, guild.id, target.id)
  }

  // ---------------------------------------------------------------------
  // Auto-unmute
  // ---------------------------------------------------------------------

  /**
   * What one document's turn of the auto-unmute loop meets: whether the
   * guild and its configuration exist, whether the role can be removed
   * (member found, Muted role present, bot with Manage Roles) and how the
   * removal ends, whether there is a log channel, and whether the update
   * reaches the database.
   */
  datatype TickEnv = TickEnv(guildPresent: bool, configPresent: bool, canRemove: bool,
                             removal: RoleCall, logChannel: bool, updateOk: bool)

  /** The query `{"active": True, "expires_at": {"$lte": now}}`. */
  predicate Due(d: MuteDoc, now: int) { d.active && d.expiresAt.Some? && d.expiresAt.value <= now }

  predicate RetryLater(e: TickEnv) { e.guildPresent && e.configPresent && e.canRemove && e.removal == RoleHttp }

  /** The document after its turn: the same mute, active only if it was. */
  function TickDoc(d: MuteDoc, now: int, e: TickEnv): (r: MuteDoc)
    ensures r.guildId == d.guildId && r.userId == d.userId && r.caseId == d.caseId
    ensures r.active ==> d.active
    ensures !r.active <==> !d.active || (e.updateOk && !RetryLater(e))
  {
    if !e.updateOk then d
    else if !e.guildPresent || !e.configPresent then d.(active := false)
    else if RetryLater(e) then d
    else if d.active then Closed(d, now, None, None)
    else d
  }

  /** The turn posts an auto-unmute log entry. */
  predicate TickLogs(d: MuteDoc, e: TickEnv)
  {
    e.updateOk && e.guildPresent && e.configPresent && !RetryLater(e) && d.active && e.logChannel
  }

  /** One document's turn of the auto-unmute loop. */
  method TickTurn(d: MuteDoc, now: int, e: TickEnv) returns (nd: MuteDoc, logs: bool)
    requires Due(d, now)
    ensures nd == TickDoc(d, now, e) && logs == TickLogs(d, e)
  {
    nd, logs := d, false;
    if !e.guildPresent || !e.configPresent {
      if e.updateOk {
        nd := d.(active := false);
      }
      return;
    }
    if e.canRemove && e.removal == RoleHttp {
      return;
    }
    if e.updateOk && d.active {
      nd := Closed(d, now, None, None);
      logs := e.logChannel;
    }
  }

  /** The collection once the first `n` documents had their turn. */
  function TickedUpTo(m: seq<MuteDoc>, now: int, envOf: nat -> TickEnv, n: nat): (r: seq<MuteDoc>)
    requires n <= |m|
    ensures |r| == |m|
  {
    if n == 0 then m
    else
      var before := TickedUpTo(m, now, envOf, n - 1);
      if Due(m[n - 1], now) then before[n - 1 := TickDoc(m[n - 1], now, envOf(n - 1))] else before
  }

  /** The collection after a whole tick. */
  function Ticked(m: seq<MuteDoc>, now: int, envOf: nat -> TickEnv): (r: seq<MuteDoc>)
    ensures |r| == |m|
  {
    TickedUpTo(m, now, envOf, |m|)
  }

  /** Each document is changed by its own turn only, and only when it is due. */
  lemma {:induction false} TickedAt(m: seq<MuteDoc>, now: int, envOf: nat -> TickEnv, n: nat, i: nat)
    requires n <= |m| && i < |m|
    ensures TickedUpTo(m, now, envOf, n)[i] ==
            if i < n && Due(m[i], now) then TickDoc(m[i], now, envOf(i)) else m[i]
  {
    if n > 0 {
      TickedAt(m, now, envOf, n - 1, i);
    }
  }

  /** The loop of `_auto_unmute_loop` over the documents its query returned. */
  method TickAll(docs: seq<MuteDoc>, now: int, envOf: nat -> TickEnv) returns (ms: seq<MuteDoc>, logged: seq<nat>)
    ensures ms == Ticked(docs, now, envOf)
    ensures logged == TickLog(docs, now, envOf, |docs|)
  {
    ms := docs;
    logged := [];
    for i := 0 to |docs|
      invariant ms == TickedUpTo(docs, now, envOf, i)
      invariant logged == TickLog(docs, now, envOf, i)
    {
      var d := docs[i];
      TickedAt(docs, now, envOf, i, i);
      if Due(d, now) {
        var nd, logs := TickTurn(d, now, envOf(i));
        ms := ms[i := nd];
        if logs {
          logged := logged + [i];
        }
      }
    }
  }

  lemma TickedOk(m: seq<MuteDoc>, counters: map<int, nat>, now: int, envOf: nat -> TickEnv)
    requires MutesOk(m, counters)
    ensures MutesOk(Ticked(m, now, envOf), counters)
  {
    var t := Ticked(m, now, envOf);
    forall i | 0 <= i < |m|
      ensures t[i].guildId == m[i].guildId && t[i].userId == m[i].userId
              && t[i].caseId == m[i].caseId && (t[i].active ==> m[i].active)
    {
      TickedAt(m, now, envOf, |m|, i);
    }
    ClosingOk(m, t, counters);
  }

  /** The documents among the first `n` whose turn posts a log entry, in order. */
  function TickLog(m: seq<MuteDoc>, now: int, envOf: nat -> TickEnv, n: nat): seq<nat>
    requires n <= |m|
  {
    if n == 0 then []
    else TickLog(m, now, envOf, n - 1)
         + (if Due(m[n - 1], now) && TickLogs(m[n - 1], envOf(n - 1)) then [n - 1] else [])
  }

  lemma {:induction false} TickLogMembers(m: seq<MuteDoc>, now: int, envOf: nat -> TickEnv, n: nat, k: nat)
    requires n <= |m|
    ensures k in TickLog(m, now, envOf, n) <==> k < n && Due(m[k], now) && TickLogs(m[k], envOf(k))
  {
    if n > 0 {
      TickLogMembers(m, now, envOf, n - 1, k);
    }
  }

  /** A logged document was active and is closed by the tick; a later tick never logs it again. */
  lemma TickLogsOnce(m: seq<MuteDoc>, now: int, envOf: nat -> TickEnv, later: int, envOf2: nat -> TickEnv, k: nat)
    requires k in TickLog(m, now, envOf, |m|)
    ensures k < |m| && m[k].active && !Ticked(m, now, envOf)[k].active
    ensures k !in TickLog(Ticked(m, now, envOf), later, envOf2, |m|)
  {
    TickLogMembers(m, now, envOf, |m|, k);
    TickLogMembers(Ticked(m, now, envOf), later, envOf2, |m|, k);
    TickedAt(m, now, envOf, |m|, k);
  }

  /** An HTTP error on role removal leaves the mute active, so the next tick tries again. */
  lemma TickRetriesAfterHttpError(m: seq<MuteDoc>, now: int, envOf: nat -> TickEnv, later: int, i: nat)
    requires i < |m| && Due(m[i], now) && RetryLater(envOf(i)) && now <= later
    ensures Ticked(m, now, envOf)[i] == m[i] && Due(Ticked(m, now, envOf)[i], later)
  {
    TickedAt(m, now, envOf, |m|, i);
  }

  /** Mutes without an expiry, or expiring later, are untouched by a tick. */
  lemma TickKeepsUndue(m: seq<MuteDoc>, now: int, envOf: nat -> TickEnv, i: nat)
    requires i < |m|
    requires m[i].expiresAt.None? || m[i].expiresAt.value > now
    ensures Ticked(m, now, envOf)[i] == m[i]
  {
    TickedAt(m, now, envOf, |m|, i);
  }

  // ---------------------------------------------------------------------
  // Pending DM deletions
  // ---------------------------------------------------------------------

  function DueDelete(now: int): PendingDelete -> bool
  {
    (d: PendingDelete) => d.expiresAt.Some? && d.expiresAt.value <= now
  }

  function FutureDelete(now: int): PendingDelete -> bool
  {
    (d: PendingDelete) => d.expiresAt.Some? && d.expiresAt.value > now
  }

  function NotId(id: nat): PendingDelete -> bool
  {
    (d: PendingDelete) => d.id != id
  }

  /** The user and message whose DM `_delete_dm_by_doc` tries to delete, when the document names both. */
  function DmTarget(d: PendingDelete): Option<(int, int)>
  {
    if d.userId.Some? && d.dmMessageId.Some? then Some((d.userId.value, d.dmMessageId.value)) else None
  }

  /** Removing by id one document from the middle of an id-unique sequence. */
  lemma RemoveOne(a: seq<PendingDelete>, d: PendingDelete, b: seq<PendingDelete>)
    requires forall x :: x in a ==> x.id != d.id
    requires forall x :: x in b ==> x.id != d.id
    ensures Filter(a + [d] + b, NotId(d.id)) == a + b
  {
    var keep := NotId(d.id);
    FilterConcat(a + [d], b, keep);
    FilterConcat(a, [d], keep);
    assert [d][1..] == [];
    assert Filter([d], keep) == [];
    forall i | 0 <= i < |a| ensures keep(a[i]) {
      assert a[i] in a;
    }
    forall i | 0 <= i < |b| ensures keep(b[i]) {
      assert b[i] in b;
    }
    FilterAll(a, keep);
    FilterAll(b, keep);
    assert a + [] == a;
    assert Filter(a + [d], keep) == a;
  }

  // ---------------------------------------------------------------------
  // The collections
  // ---------------------------------------------------------------------

  /** The cog's MongoDB collections: `guild_configs`, `guild_counters`, `mutes`, `pending_dm_deletes`. */
  class MuteDb {
    var configs: map<int, GuildConfig>
    var counters: map<int, nat>
    var mutes: seq<MuteDoc>
    var pending: seq<PendingDelete>
    /** The source of fresh ObjectIds for pending deletions. */
    var serial: nat

    ghost predicate Valid()
      reads this
    {
      MutesOk(mutes, counters) && PendingOk(pending, serial)
    }

    constructor (configs0: map<int, GuildConfig>)
      ensures Valid()
      ensures configs == configs0 && counters == map[] && mutes == [] && pending == [] && serial == 0
    {
      configs := configs0;
      counters := map[];
      mutes := [];
      pending := [];
      serial := 0;
    }

    /**
     * `_next_case`: the atomic `$inc` with upsert, or the fallback that
     * reads, then inserts 1 or writes the value plus one. Both paths
     * return the counter's new value.
     */
    method NextCase(g: int, atomic: bool) returns (c: nat)
      requires Valid()
      modifies this
      ensures Valid()
      ensures c == Bumped(old(counters), g) && counters == old(counters)[g := c]
      ensures configs == old(configs) && mutes == old(mutes) && pending == old(pending) && serial == old(serial)
    {
      BumpOk(mutes, counters, g);
      if atomic {
        c := (if g in counters then counters[g] else 0) + 1;
        counters := counters[g := c];
      } else if g !in counters {
        counters := counters[g := 1];
        c := 1;
      } else {
        c := counters[g] + 1;
        counters := counters[g := c];
      }
    }

    /** The stored DM deletion for a mute announced in a DM. */
    method RecordDmDelete(g: int, u: int, dmId: int, now: int)
      requires Valid()
      modifies this
      ensures Valid()
      ensures pending == old(pending) + [PendingDelete(old(serial), g, Some(u), Some(dmId), Some(now + DmLifetime))]
      ensures serial == old(serial) + 1
      ensures configs == old(configs) && counters == old(counters) && mutes == old(mutes)
    {
      var d := PendingDelete(serial, g, Some(u), Some(dmId), Some(now + DmLifetime));
      AppendPendingOk(pending, serial, d);
      pending := pending + [d];
      serial := serial + 1;
    }

    /**
     * `qmute`: the checks in the command's order, then the Muted role, the
     * overwrite sweep (whose result the command ignores), a case number,
     * the document and, unless silent, the DM and its stored deletion.
     */
    method QMute(guild: Guild, author: Member, target: Member, botUserId: int,
                 args: seq<string>, now: int, env: MuteEnv) returns (r: MuteReply)
      requires Valid()
      modifies this
      ensures Valid()
      ensures configs == old(configs)
      ensures r.Muted? <==> MutePermitted(ConfigOf(old(configs), guild.id), guild, author, target, botUserId, old(mutes))
                            && env.addRole == RoleOk
      ensures ConfigOf(old(configs), guild.id).None? ==> r == Rejected(NotConfigured)
      ensures r.Rejected? ==> mutes == old(mutes) && counters == old(counters)
                              && pending == old(pending) && serial == old(serial)
      ensures r.Muted? ==> r.caseId == Bumped(old(counters), guild.id)
                           && counters == old(counters)[guild.id := r.caseId]
      ensures r.Muted? ==> (mutes == old(mutes) +
                (if env.insertOk then [NewMute(guild.id, target.id, author.id, ParseMuteArgs(args), now, r.caseId)] else []))
      ensures r.Muted? ==> r.dmSent == (!ParseMuteArgs(args).silent && env.dm.Some? && env.pendingInsertOk)
      ensures r.Muted? ==> (pending == old(pending) +
                (if r.dmSent then [PendingDelete(old(serial), guild.id, Some(target.id), env.dm, Some(now + DmLifetime))] else []))
      ensures r.Muted? ==> serial == old(serial) + (if r.dmSent then 1 else 0)
    {
      var cfgOpt := ConfigOf(configs, guild.id);
      if cfgOpt.None? {
        return Rejected(NotConfigured);
      }
      var cfg := cfgOpt.value;
      if !MayModerate(cfg, guild, author) {
        return Rejected(NoPermission);
      }
      if target.id == author.id {
        return Rejected(SelfTarget);
      }
      if target.id == botUserId {
        return Rejected(BotItself);
      }
      if target.isBot {
        return Rejected(TargetIsBot);
      }
      var actor := ActorCanTarget(guild, author, target);
      if actor.Refused? {
        return Rejected(ActorBlocked(actor.why));
      }
      var bot := CanManageMember(guild, target);
      if bot.Refused? {
        return Rejected(BotBlocked(bot.why));
      }
      var a := ParseMuteArgs(args);
      if FirstActive(mutes, guild.id, target.id).Some? {
        return Rejected(AlreadyMuted);
      }
      if !ConfigComplete(cfg, guild) {
        return Rejected(ConfigIncomplete);
      }
      if guild.roles[cfg.mutedRoleId.value] >= guild.me.value.topRole {
        return Rejected(MutedRoleTooHigh);
      }
      if env.addRole != RoleOk {
        return Rejected(AddRoleFailed(env.addRole));
      }
      var _ := OverwriteSweep(guild, cfg.jailChannelId.value, SweepRetries, env.sweep);
      var c := NextCase(guild.id, env.atomicCounter);
      if env.insertOk {
        var d := NewMute(guild.id, target.id, author.id, a, now, c);
        AppendMuteOk(mutes, old(counters), d);
        mutes := mutes + [d];
      }
      var dmSent := false;
      if !a.silent && env.dm.Some? && env.pendingInsertOk {
        RecordDmDelete(guild.id, target.id, env.dm.value, now);
        dmSent := true;
      }
      r := Muted(c, dmSent);
    }

    /**
     * `qunmute`: the checks in the command's order, then the role removal
     * (whose failure is only logged) and `update_many` over the member's
     * active mutes; the reply names the case `find_one` returned.
     */
    method QUnmute(guild: Guild, author: Member, target: Member, now: int, updateOk: bool) returns (r: UnmuteReply)
      requires Valid()
      modifies this
      ensures Valid()
      ensures configs == old(configs) && counters == old(counters) && pending == old(pending) && serial == old(serial)
      ensures r.Unmuted? <==> UnmutePermitted(ConfigOf(old(configs), guild.id), guild, author, target, old(mutes))
      ensures r.Unmuted? ==> r.caseId == old(mutes)[FirstActive(old(mutes), guild.id, target.id).value].caseId
      ensures r.Unmuted? ==> mutes == (if updateOk then DeactivateAll(old(mutes), guild.id, target.id, now, Some(author.id), None)
                                       else old(mutes))
      ensures r.UnmuteRejected? ==> mutes == old(mutes)
    {
      var cfgOpt := ConfigOf(configs, guild.id);
      if cfgOpt.None? {
        return UnmuteRejected(UnmuteNotConfigured);
      }
      var cfg := cfgOpt.value;
      if !MayModerate(cfg, guild, author) {
        return UnmuteRejected(UnmuteNoPermission);
      }
      if target.id == author.id && !author.admin {
        return UnmuteRejected(SelfUnmute);
      }
      var actor := ActorCanTarget(guild, author, target);
      if actor.Refused? {
        return UnmuteRejected(UnmuteActorBlocked(actor.why));
      }
      if !HasRole(guild, cfg.mutedRoleId) {
        return UnmuteRejected(MutedRoleMissing);
      }
      var found := FirstActive(mutes, guild.id, target.id);
      if found.None? {
        return UnmuteRejected(NotMuted);
      }
      var c := mutes[found.value].caseId;
      if updateOk {
        DeactivateAllOk(mutes, counters, guild.id, target.id, now, Some(author.id), None);
        mutes := DeactivateAll(mutes, guild.id, target.id, now, Some(author.id), None);
      }
      r := Unmuted(c);
    }

    /**
     * One run of `_auto_unmute_loop`: each due mute (in the order the query
     * returns them) is closed unless the role removal hit an HTTP error;
     * one whose guild or configuration is gone is only switched off.
     * Returns the documents whose closing was logged.
     */
    method AutoUnmuteTick(now: int, envOf: nat -> TickEnv) returns (logged: seq<nat>)
      requires Valid()
      modifies this
      ensures Valid()
      ensures mutes == Ticked(old(mutes), now, envOf)
      ensures logged == TickLog(old(mutes), now, envOf, |old(mutes)|)
      ensures configs == old(configs) && counters == old(counters) && pending == old(pending) && serial == old(serial)
    {
      var ms;
      ms, logged := TickAll(mutes, now, envOf);
      TickedOk(mutes, counters, now, envOf);
      mutes := ms;
    }

    /**
     * `_startup_work`: documents without an expiry are dropped, expired
     * ones are executed and dropped, and the rest are scheduled with
     * their remaining delay. A failed read does nothing.
     */
    method StartupWork(now: int, readOk: bool) returns (executed: seq<PendingDelete>, scheduled: seq<(nat, int)>)
      requires Valid()
      modifies this
      ensures Valid()
      ensures !readOk ==> pending == old(pending) && executed == [] && scheduled == []
      ensures readOk ==> pending == Filter(old(pending), FutureDelete(now))
      ensures readOk ==> executed == Filter(old(pending), DueDelete(now))
      ensures readOk ==> Schedules(pending, scheduled, now)
      ensures configs == old(configs) && counters == old(counters) && mutes == old(mutes) && serial == old(serial)
    {
      executed, scheduled := [], [];
      if !readOk {
        return;
      }
      var kept;
      kept, executed, scheduled := StartupPass(pending, now);
      FilterPendingOk(pending, serial, FutureDelete(now));
      pending := kept;
    }

    /** `delete_one({"_id": id})` on `pending_dm_deletes`. */
    method DeletePending(id: nat)
      requires Valid()
      modifies this
      ensures Valid()
      ensures pending == Filter(old(pending), NotId(id))
      ensures configs == old(configs) && counters == old(counters) && mutes == old(mutes) && serial == old(serial)
    {
      FilterPendingOk(pending, serial, NotId(id));
      pending := Filter(pending, NotId(id));
    }

    /**
     * `_schedule_delete_dm` once its delay has passed: the DM of the
     * stored document is deleted if the document is still there, and the
     * document is removed either way.
     */
    method FireScheduledDelete(id: nat) returns (dm: Option<(int, int)>)
      requires Valid()
      modifies this
      ensures Valid()
      ensures pending == Filter(old(pending), NotId(id))
      ensures dm.Some? ==> exists i :: 0 <= i < |old(pending)| && old(pending)[i].id == id
                                       && DmTarget(old(pending)[i]) == dm
      ensures (forall i :: 0 <= i < |old(pending)| ==> old(pending)[i].id != id) ==> dm.None?
      ensures configs == old(configs) && counters == old(counters) && mutes == old(mutes) && serial == old(serial)
    {
      var found := FindPending(pending, id);
      dm := if found.Some? then DmTarget(pending[found.value]) else None;
      DeletePending(id);
    }
  }

  /** `find_one({"_id": id})`. */
  function FindPending(p: seq<PendingDelete>, id: nat): (r: Option<nat>)
    ensures r.Some? ==> r.value < |p| && p[r.value].id == id
    ensures r.None? ==> forall i :: 0 <= i < |p| ==> p[i].id != id
  {
    if p == [] then None
    else if p[0].id == id then Some(0)
    else
      var rest := FindPending(p[1..], id);
      if rest.None? then None else Some(rest.value + 1)
  }

  predicate IsFuture(d: PendingDelete, now: int) { d.expiresAt.Some? && d.expiresAt.value > now }

  predicate IsExpired(d: PendingDelete, now: int) { d.expiresAt.Some? && d.expiresAt.value <= now }

  /** The documents among the first `n` that stay stored at startup. */
  function Kept(docs: seq<PendingDelete>, n: nat, now: int): seq<PendingDelete>
    requires n <= |docs|
  {
    if n == 0 then [] else Kept(docs, n - 1, now) + (if IsFuture(docs[n - 1], now) then [docs[n - 1]] else [])
  }

  /** The documents among the first `n` whose DM is deleted at startup. */
  function Executed(docs: seq<PendingDelete>, n: nat, now: int): seq<PendingDelete>
    requires n <= |docs|
  {
    if n == 0 then [] else Executed(docs, n - 1, now) + (if IsExpired(docs[n - 1], now) then [docs[n - 1]] else [])
  }

  /** The deletions among the first `n` scheduled at startup, with their delays. */
  function Scheduled(docs: seq<PendingDelete>, n: nat, now: int): seq<(nat, int)>
    requires n <= |docs|
  {
    if n == 0 then []
    else Scheduled(docs, n - 1, now)
         + (if IsFuture(docs[n - 1], now) then [(docs[n - 1].id, docs[n - 1].expiresAt.value - now)] else [])
  }

  lemma {:induction false} KeptIsFilter(docs: seq<PendingDelete>, n: nat, now: int)
    requires n <= |docs|
    ensures Kept(docs, n, now) == Filter(docs[..n], FutureDelete(now))
  {
    if n == 0 {
      assert docs[..0] == [];
    } else {
      KeptIsFilter(docs, n - 1, now);
      assert docs[..n] == docs[..n - 1] + [docs[n - 1]];
      FilterSnoc(docs[..n - 1], docs[n - 1], FutureDelete(now));
    }
  }

  /** The schedule is the kept documents, in order, each with its positive remaining delay. */
  lemma {:induction false} ScheduledMatchesKept(docs: seq<PendingDelete>, n: nat, now: int)
    requires n <= |docs|
    ensures Schedules(Kept(docs, n, now), Scheduled(docs, n, now), now)
  {
    if n > 0 {
      ScheduledMatchesKept(docs, n - 1, now);
      var k0, s0, d := Kept(docs, n - 1, now), Scheduled(docs, n - 1, now), docs[n - 1];
      if IsFuture(d, now) {
        var k, sc := k0 + [d], s0 + [(d.id, d.expiresAt.value - now)];
        assert Kept(docs, n, now) == k && Scheduled(docs, n, now) == sc;
        forall i | 0 <= i < |k| ensures IsFuture(k[i], now) && sc[i] == (k[i].id, k[i].expiresAt.value - now) {
          if i < |k0| {
            assert k[i] == k0[i] && sc[i] == s0[i];
          }
        }
      } else {
        assert Kept(docs, n, now) == k0 + [] && Scheduled(docs, n, now) == s0 + [];
        assert k0 + [] == k0 && s0 + [] == s0;
      }
    }
  }

  lemma {:induction false} ExecutedIsFilter(docs: seq<PendingDelete>, n: nat, now: int)
    requires n <= |docs|
    ensures Executed(docs, n, now) == Filter(docs[..n], DueDelete(now))
  {
    if n == 0 {
      assert docs[..0] == [];
    } else {
      ExecutedIsFilter(docs, n - 1, now);
      assert docs[..n] == docs[..n - 1] + [docs[n - 1]];
      FilterSnoc(docs[..n - 1], docs[n - 1], DueDelete(now));
    }
  }

  /** A kept document comes from the first `n`, so its id is none that those lack. */
  lemma {:induction false} KeptIdsAvoid(docs: seq<PendingDelete>, n: nat, now: int, id: nat)
    requires n <= |docs|
    requires forall j :: 0 <= j < n ==> docs[j].id != id
    ensures forall x :: x in Kept(docs, n, now) ==> x.id != id
  {
    if n > 0 {
      KeptIdsAvoid(docs, n - 1, now, id);
    }
  }

  /**
   * `scheduled` holds one timer per document of `p`, in order: its id and
   * its remaining, positive, delay.
   */
  predicate Schedules(p: seq<PendingDelete>, scheduled: seq<(nat, int)>, now: int) {
    |scheduled| == |p|
    && forall i :: 0 <= i < |p| ==>
         IsFuture(p[i], now) && scheduled[i] == (p[i].id, p[i].expiresAt.value - now)
  }

  /**
   * The loop of `_startup_work` over the snapshot `docs` of the collection:
   * `p` is the collection as the loop's `delete_one` calls leave it.
   */
  method StartupPass(docs: seq<PendingDelete>, now: int)
    returns (p: seq<PendingDelete>, executed: seq<PendingDelete>, scheduled: seq<(nat, int)>)
    requires IdsUnique(docs)
    ensures p == Kept(docs, |docs|, now)
    ensures executed == Executed(docs, |docs|, now)
    ensures scheduled == Scheduled(docs, |docs|, now)
    ensures p == Filter(docs, FutureDelete(now)) && executed == Filter(docs, DueDelete(now))
    ensures Schedules(p, scheduled, now)
  {
    p, executed, scheduled := docs, [], [];
    for k := 0 to |docs|
      invariant StartupState(docs, k, now, p, executed, scheduled)
    {
      p, executed, scheduled := StartupStep(docs, k, now, p, executed, scheduled);
    }
    assert docs[|docs|..] == [];
    StartupMeaning(docs, now);
  }

  /** What the pass over the whole snapshot leaves, kept, executed and scheduled. */
  lemma StartupMeaning(docs: seq<PendingDelete>, now: int)
    ensures Kept(docs, |docs|, now) == Filter(docs, FutureDelete(now))
    ensures Executed(docs, |docs|, now) == Filter(docs, DueDelete(now))
    ensures Schedules(Kept(docs, |docs|, now), Scheduled(docs, |docs|, now), now)
  {
    assert docs[..|docs|] == docs;
    KeptIsFilter(docs, |docs|, now);
    ExecutedIsFilter(docs, |docs|, now);
    ScheduledMatchesKept(docs, |docs|, now);
  }

  /** One document of the startup pass: drop it, run its deletion and drop it, or schedule it. */
  method StartupStep(docs: seq<PendingDelete>, k: nat, now: int, p: seq<PendingDelete>,
                     executed: seq<PendingDelete>, scheduled: seq<(nat, int)>)
    returns (p': seq<PendingDelete>, executed': seq<PendingDelete>, scheduled': seq<(nat, int)>)
    requires IdsUnique(docs) && k < |docs| && StartupState(docs, k, now, p, executed, scheduled)
    ensures StartupState(docs, k + 1, now, p', executed', scheduled')
  {
    p', executed', scheduled' := p, executed, scheduled;
    var d := docs[k];
    if d.expiresAt.None? || d.expiresAt.value - now <= 0 {
      StartupDrops(docs, k, now, p, executed, scheduled);
      if d.expiresAt.Some? {
        executed' := executed + [d];
      }
      p' := Filter(p, NotId(d.id));
    } else {
      StartupSchedules(docs, k, now, p, executed, scheduled);
      scheduled' := scheduled + [(d.id, d.expiresAt.value - now)];
    }
  }

  /** Where `_startup_work` stands after the first `k` documents of its snapshot. */
  predicate StartupState(docs: seq<PendingDelete>, k: nat, now: int, p: seq<PendingDelete>,
                         executed: seq<PendingDelete>, scheduled: seq<(nat, int)>)
  {
    && k <= |docs|
    && p == Kept(docs, k, now) + docs[k..]
    && executed == Executed(docs, k, now)
    && scheduled == Scheduled(docs, k, now)
  }

  lemma StartupDrops(docs: seq<PendingDelete>, k: nat, now: int, p: seq<PendingDelete>,
                     executed: seq<PendingDelete>, scheduled: seq<(nat, int)>)
    requires IdsUnique(docs) && k < |docs| && StartupState(docs, k, now, p, executed, scheduled)
    requires !IsFuture(docs[k], now)
    ensures StartupState(docs, k + 1, now, Filter(p, NotId(docs[k].id)),
                         if docs[k].expiresAt.Some? then executed + [docs[k]] else executed, scheduled)
  {
    var d := docs[k];
    var kept := Kept(docs, k, now);
    KeptIdsAvoid(docs, k, now, d.id);
    forall x | x in docs[k + 1..] ensures x.id != d.id {
      var j :| 0 <= j < |docs| - k - 1 && docs[k + 1..][j] == x;
      assert docs[k + 1 + j] == x;
    }
    assert docs[k..] == [d] + docs[k + 1..];
    assert p == kept + [d] + docs[k + 1..];
    RemoveOne(kept, d, docs[k + 1..]);
  }

  lemma StartupSchedules(docs: seq<PendingDelete>, k: nat, now: int, p: seq<PendingDelete>,
                         executed: seq<PendingDelete>, scheduled: seq<(nat, int)>)
    requires k < |docs| && StartupState(docs, k, now, p, executed, scheduled)
    requires IsFuture(docs[k], now)
    ensures StartupState(docs, k + 1, now, p, executed,
                         scheduled + [(docs[k].id, docs[k].expiresAt.value - now)])
  {
    assert docs[k..] == [docs[k]] + docs[k + 1..];
  }

}
