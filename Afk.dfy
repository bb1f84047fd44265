/**
 * `cogs/afk_cog.py`: AFK status per user, either global or limited to one
 * server, with a one-hour read cache, an "[AFK] " nickname, recorded
 * mentions and a one-mention-per-page summary on return.
 *
 * Time is whole seconds since the epoch, passed in as `now`; the ISO
 * strings the source stores compare as these numbers do.
 */
module Afk {
  import opened Common

  const CacheSeconds := 3600
  const MaxReason := 100
  const MaxNick := 32
  const MaxContent := 200
  const RetentionSeconds := 7 * 86400
  const Prefix := "[AFK] "

  // ---------------------------------------------------------------------------
  // Relative time
  // ---------------------------------------------------------------------------

  /** The parts `format_time_ago` shows. */
  datatype Ago = Seconds(s: int) | Minutes(m: nat) | HoursMinutes(h: nat, m: nat) | DaysHours(d: nat, h: nat)

  /** `format_time_ago` on the truncated whole seconds: each unit is shown only below the next one's threshold. */
  function AgoOf(seconds: int): (a: Ago)
    ensures a.Seconds? <==> seconds < 60
    ensures a.Seconds? ==> a.s == seconds
    ensures a.Minutes? ==> 1 <= a.m < 60 && 60 * a.m <= seconds < 60 * a.m + 60
    ensures a.HoursMinutes? ==> 1 <= a.h < 24 && a.m < 60 && 3600 * a.h + 60 * a.m <= seconds < 3600 * a.h + 60 * a.m + 60
    ensures a.DaysHours? ==> 1 <= a.d && a.h < 24 && 86400 * a.d + 3600 * a.h <= seconds < 86400 * a.d + 3600 * a.h + 3600
  {
    if seconds < 60 then Seconds(seconds)
    else
      var minutes := seconds / 60;
      if minutes < 60 then Minutes(minutes)
      else
        var hours := minutes / 60;
        if hours < 24 then HoursMinutes(hours, minutes % 60)
        else DaysHours(hours / 24, hours % 24)
  }

  /** Which form a number of seconds takes: the thresholds are one minute, one hour and one day. */
  lemma AgoForms(seconds: int)
    ensures 60 <= seconds < 3600 ==> AgoOf(seconds).Minutes?
    ensures 3600 <= seconds < 86400 ==> AgoOf(seconds).HoursMinutes?
    ensures 86400 <= seconds ==> AgoOf(seconds).DaysHours?
  {
  }

  function Render(a: Ago): string
  {
    match a
    case Seconds(s) => IntToString(s) + "s ago"
    case Minutes(m) => NatToString(m) + "m ago"
    case HoursMinutes(h, m) => NatToString(h) + "h " + NatToString(m) + "m ago"
    case DaysHours(d, h) => NatToString(d) + "d " + NatToString(h) + "h ago"
  }

  function FormatTimeAgo(seconds: int): (r: string)
    ensures EndsWith(r, " ago")
  {
    Render(AgoOf(seconds))
  }

  // ---------------------------------------------------------------------------
  // Records and the cache
  // ---------------------------------------------------------------------------

  datatype Scope = Global | ServerOnly

  /** The parts of an AFK status the cog reads back. */
  datatype Record = Record(reason: string, timestamp: int, scope: Scope, serverId: Option<int>)

  /** An `afk` document: the status and the nicknames remembered for the return. */
  datatype Doc = Doc(rec: Record, originalNick: Option<string>, afkNick: Option<string>)

  /** An `afk_mentions` document. */
  datatype MentionDoc = MentionDoc(user: int, messageId: int, channel: int, guild: int, mentionedBy: int, createdAt: int,
                                   content: string)

  /** A cached record is used while its AFK is at most an hour old. */
  predicate Fresh(r: Record, now: int) { now - r.timestamp <= CacheSeconds }

  /** What `get_afk_status` answers: a fresh cached record, else the stored one when the database answers. */
  function Seen(cache: map<int, Record>, db: map<int, Doc>, u: int, now: int, dbOk: bool): Option<Record>
  {
    if u in cache && Fresh(cache[u], now) then Some(cache[u])
    else if dbOk && u in db then Some(db[u].rec)
    else None
  }

  /** `clean_cache`: entries whose AFK is more than an hour old are dropped. */
  function Cleaned(cache: map<int, Record>, now: int): (r: map<int, Record>)
    ensures forall u :: u in r <==> u in cache && Fresh(cache[u], now)
    ensures forall u :: u in r ==> r[u] == cache[u]
  {
    map u | u in cache && Fresh(cache[u], now) :: cache[u]
  }

  /** Cleaning the cache never changes a later answer. */
  lemma CleanHarmless(cache: map<int, Record>, db: map<int, Doc>, u: int, now: int, later: int, dbOk: bool)
    requires now <= later
    ensures Seen(Cleaned(cache, now), db, u, later, dbOk) == Seen(cache, db, u, later, dbOk)
  {
    if u in cache && !Fresh(cache[u], now) {
      assert !Fresh(cache[u], later);
    }
  }

  /** A server-scoped AFK applies only to messages in its own server. */
  predicate Applies(r: Record, guild: Option<int>)
  {
    r.scope == ServerOnly ==> guild.Some? && r.serverId == guild
  }

  /** A server-scoped AFK never applies in another server or in a direct message. */
  lemma ServerScopeStaysHome(r: Record, guild: Option<int>)
    requires r.scope == ServerOnly && r.serverId.Some?
    ensures Applies(r, guild) <==> guild == r.serverId
  {
  }

  // ---------------------------------------------------------------------------
  // Nicknames
  // ---------------------------------------------------------------------------

  datatype MemberView = MemberView(display: string, top: int)

  /** One of the bot's guilds as the nickname code sees it; `editOk` says whether `member.edit` succeeds there. */
  datatype GuildView = GuildView(id: int, member: Option<MemberView>, manage: bool, botTop: int, editOk: bool)

  /** The bot may rename the member: it is there, the bot can manage nicknames and its top role is higher. */
  predicate CanRename(g: GuildView)
  {
    g.member.Some? && g.manage && g.botTop > g.member.value.top
  }

  /** The AFK nickname: "[AFK] " and the name, cut at 32. */
  function AfkNick(display: string): (r: string)
    ensures StartsWith(r, Prefix) && |r| <= MaxNick
  {
    Take(Prefix + display, MaxNick)
  }

  /** An edit is due where the bot may rename and the name lacks the prefix. */
  predicate NeedsRename(g: GuildView)
  {
    CanRename(g) && !StartsWith(g.member.value.display, Prefix)
  }

  /**
   * The `global` loop of `set_afk_status`: the first renamable name is
   * remembered, each renamable name without the prefix gets it, and a
   * failed edit ends the loop. The result is the remembered name, the
   * last nickname set, and the edits done.
   */
  function RenamePlan(guilds: seq<GuildView>, original: Option<string>, newNick: Option<string>)
    : (r: (Option<string>, Option<string>, seq<(int, string)>))
    ensures forall e :: e in r.2 ==> StartsWith(e.1, Prefix) && |e.1| <= MaxNick
    ensures forall e :: e in r.2 ==> exists g :: g in guilds && g.id == e.0 && NeedsRename(g) && e.1 == AfkNick(g.member.value.display)
    ensures original.Some? && original.value != "" ==> r.0 == original
  {
    if guilds == [] then (original, newNick, [])
    else
      var g := guilds[0];
      if !CanRename(g) then RenamePlan(guilds[1..], original, newNick)
      else
        var o := if original.Some? && original.value != "" then original else Some(g.member.value.display);
        if StartsWith(g.member.value.display, Prefix) then RenamePlan(guilds[1..], o, newNick)
        else
          var n := AfkNick(g.member.value.display);
          if g.editOk then
            var rest := RenamePlan(guilds[1..], o, Some(n));
            (rest.0, rest.1, [(g.id, n)] + rest.2)
          else (o, Some(n), [])
  }

  /**
   * The `server` branch of `set_afk_status`: in the named server a member
   * the bot may rename has their name remembered, and gets the prefixed
   * name unless they already carry the prefix; the edit is done when the
   * server accepts it.
   */
  function ServerPlan(guilds: seq<GuildView>, serverId: int): (r: (Option<string>, Option<string>, seq<(int, string)>))
    ensures var f := FindGuild(guilds, serverId);
            && (r.0.Some? <==> f.Some? && CanRename(f.value))
            && (r.0.Some? ==> r.0.value == f.value.member.value.display)
            && (r.1.Some? <==> f.Some? && NeedsRename(f.value))
            && (r.1.Some? ==> r.1.value == AfkNick(f.value.member.value.display))
            && (r.2 != [] <==> r.1.Some? && f.value.editOk)
            && (r.2 != [] ==> r.2 == [(serverId, r.1.value)])
  {
    var f := FindGuild(guilds, serverId);
    if f.Some? && CanRename(f.value) then
      var d := f.value.member.value.display;
      if StartsWith(d, Prefix) then (Some(d), None, [])
      else (Some(d), Some(AfkNick(d)), if f.value.editOk then [(serverId, AfkNick(d))] else [])
    else (None, None, [])
  }

  /** The remembered name, the AFK nickname and the edits of either scope; a server scope needs a truthy server id. */
  function NickPlan(scope: Scope, serverId: Option<int>, guilds: seq<GuildView>): (Option<string>, Option<string>, seq<(int, string)>)
  {
    if scope == Global then RenamePlan(guilds, None, None)
    else if serverId.Some? && serverId.value != 0 then ServerPlan(guilds, serverId.value)
    else (None, None, [])
  }

  /** The loop itself. */
  method RenameAll(guilds: seq<GuildView>) returns (original: Option<string>, newNick: Option<string>, edits: seq<(int, string)>)
    ensures (original, newNick, edits) == RenamePlan(guilds, None, None)
  {
    original, newNick, edits := None, None, [];
    var i := 0;
    assert guilds[0..] == guilds;
    assert edits + RenamePlan(guilds, None, None).2 == RenamePlan(guilds, None, None).2;
    while i < |guilds|
      invariant 0 <= i <= |guilds|
      invariant RenamePlan(guilds, None, None) ==
                var rest := RenamePlan(guilds[i..], original, newNick); (rest.0, rest.1, edits + rest.2)
      decreases |guilds| - i
    {
      var g := guilds[i];
      assert guilds[i..][1..] == guilds[i + 1..];
      if CanRename(g) {
        if !(original.Some? && original.value != "") {
          original := Some(g.member.value.display);
        }
        if !StartsWith(g.member.value.display, Prefix) {
          var n := AfkNick(g.member.value.display);
          newNick := Some(n);
          if !g.editOk {
            assert edits + [] == edits;
            return;
          }
          ghost var rest := RenamePlan(guilds[i + 1..], original, newNick);
          assert edits + ([(g.id, n)] + rest.2) == (edits + [(g.id, n)]) + rest.2;
          edits := edits + [(g.id, n)];
        }
      }
      i := i + 1;
    }
    assert edits + [] == edits;
  }

  /** A global AFK remembers one name, the first guild's: with two renamable guilds, both are later restored to it. */
  lemma GlobalRemembersFirstName(a: int, b: int)
    ensures var ga := GuildView(a, Some(MemberView("Ann", 0)), true, 1, true);
            var gb := GuildView(b, Some(MemberView("Bea", 0)), true, 1, true);
            RenamePlan([ga, gb], None, None) == (Some("Ann"), Some("[AFK] Bea"), [(a, "[AFK] Ann"), (b, "[AFK] Bea")])
  {
    var ga := GuildView(a, Some(MemberView("Ann", 0)), true, 1, true);
    var gb := GuildView(b, Some(MemberView("Bea", 0)), true, 1, true);
    assert !StartsWith("Ann", Prefix) && !StartsWith("Bea", Prefix);
    assert AfkNick("Ann") == "[AFK] Ann" && AfkNick("Bea") == "[AFK] Bea";
    assert [ga, gb][1..] == [gb];
    assert CanRename(ga) && CanRename(gb);
    assert [gb][1..] == [];
    var last := RenamePlan([], Some("Ann"), Some("[AFK] Bea"));
    assert last == (Some("Ann"), Some("[AFK] Bea"), []);
    assert RenamePlan([gb], Some("Ann"), Some("[AFK] Ann")) == (last.0, last.1, [(b, "[AFK] Bea")] + last.2);
    assert [(b, "[AFK] Bea")] + last.2 == [(b, "[AFK] Bea")];
    var rest := RenamePlan([gb], Some("Ann"), Some("[AFK] Ann"));
    assert RenamePlan([ga, gb], None, None) == (rest.0, rest.1, [(a, "[AFK] Ann")] + rest.2);
    assert [(a, "[AFK] Ann")] + [(b, "[AFK] Bea")] == [(a, "[AFK] Ann"), (b, "[AFK] Bea")];
  }

  /**
   * The `global` loop of `remove_afk_status`: every guild where the member
   * is, a name is remembered, the bot can manage nicknames and the shown
   * name has the prefix gets the remembered name back; a failed edit ends
   * the loop. The role hierarchy is not checked here.
   */
  function RestorePlan(guilds: seq<GuildView>, original: string): (r: seq<(int, string)>)
    ensures forall e :: e in r ==> e.1 == original && original != ""
    ensures forall e :: e in r ==> exists g :: g in guilds && g.id == e.0 && g.member.Some?
                                               && StartsWith(g.member.value.display, Prefix)
  {
    if guilds == [] then []
    else
      var g := guilds[0];
      if g.member.Some? && original != "" && g.manage && StartsWith(g.member.value.display, Prefix) then
        if g.editOk then [(g.id, original)] + RestorePlan(guilds[1..], original) else []
      else RestorePlan(guilds[1..], original)
  }

  method RestoreAll(guilds: seq<GuildView>, original: string) returns (edits: seq<(int, string)>)
    ensures edits == RestorePlan(guilds, original)
  {
    edits := [];
    var i := 0;
    while i < |guilds|
      invariant 0 <= i <= |guilds|
      invariant RestorePlan(guilds, original) == edits + RestorePlan(guilds[i..], original)
      decreases |guilds| - i
    {
      var g := guilds[i];
      assert guilds[i..][1..] == guilds[i + 1..];
      if g.member.Some? && original != "" && g.manage && StartsWith(g.member.value.display, Prefix) {
        if !g.editOk {
          assert edits + [] == edits;
          return;
        }
        assert edits + ([(g.id, original)] + RestorePlan(guilds[i + 1..], original))
            == (edits + [(g.id, original)]) + RestorePlan(guilds[i + 1..], original);
        edits := edits + [(g.id, original)];
      }
      i := i + 1;
    }
    assert edits + [] == edits;
  }

  function FindGuild(guilds: seq<GuildView>, id: int): (r: Option<GuildView>)
    ensures r.Some? ==> r.value in guilds && r.value.id == id
    ensures r.None? ==> forall g :: g in guilds ==> g.id != id
  {
    if guilds == [] then None
    else if guilds[0].id == id then Some(guilds[0])
    else FindGuild(guilds[1..], id)
  }

  /** The stored user's mentions a return summarises: those since the AFK began, and in its server when server-scoped. */
  function Summary(mentions: seq<MentionDoc>, u: int, r: Record): (s: seq<MentionDoc>)
    ensures forall m :: m in s <==> m in mentions && m.user == u && m.createdAt >= r.timestamp
                                    && (r.scope == ServerOnly && r.serverId.Some? ==> m.guild == r.serverId.value)
  {
    Filter(mentions, (m: MentionDoc) =>
      m.user == u && m.createdAt >= r.timestamp && (r.scope == ServerOnly && r.serverId.Some? ==> m.guild == r.serverId.value))
  }

  /** The users a message's mentions notify: non-bots with an AFK status that applies where the message is. */
  function Notified(mentioned: seq<(int, bool)>, guild: Option<int>, cache: map<int, Record>, db: map<int, Doc>, now: int,
                    dbOk: bool): (r: seq<int>)
    ensures forall u :: u in r ==> (exists i :: 0 <= i < |mentioned| && mentioned[i] == (u, false))
                                   && Seen(cache, db, u, now, dbOk).Some? && Applies(Seen(cache, db, u, now, dbOk).value, guild)
  {
    if mentioned == [] then []
    else
      var (u, bot) := mentioned[|mentioned| - 1];
      var prev := Notified(mentioned[..|mentioned| - 1], guild, cache, db, now, dbOk);
      var s := Seen(cache, db, u, now, dbOk);
      if !bot && s.Some? && Applies(s.value, guild) then prev + [u] else prev
  }

  /** The mention documents recorded for the notified users. */
  function MentionRows(us: seq<int>, msgId: int, channel: int, guild: int, mentionedBy: int, now: int, content: string)
    : (r: seq<MentionDoc>)
    ensures |r| == |us|
    ensures forall i :: 0 <= i < |r| ==> r[i] == MentionDoc(us[i], msgId, channel, guild, mentionedBy, now, Take(content, MaxContent))
  {
    if us == [] then []
    else MentionRows(us[..|us| - 1], msgId, channel, guild, mentionedBy, now, content)
         + [MentionDoc(us[|us| - 1], msgId, channel, guild, mentionedBy, now, Take(content, MaxContent))]
  }

  lemma NotifiedStep(mentioned: seq<(int, bool)>, i: nat, guild: Option<int>, cache: map<int, Record>,
                     db: map<int, Doc>, now: int, dbOk: bool)
    requires i < |mentioned|
    ensures var (u, bot) := mentioned[i];
            var s := Seen(cache, db, u, now, dbOk);
            Notified(mentioned[..i + 1], guild, cache, db, now, dbOk)
              == if !bot && s.Some? && Applies(s.value, guild) then Notified(mentioned[..i], guild, cache, db, now, dbOk) + [u]
                 else Notified(mentioned[..i], guild, cache, db, now, dbOk)
  {
    assert mentioned[..i + 1][..i] == mentioned[..i];
  }

  /** The mention documents stored for the notified users: none outside a server or when the database fails. */
  function Recorded(us: seq<int>, msgId: int, channel: int, guild: Option<int>, dbOk: bool, mentionedBy: int, now: int,
                    content: string): seq<MentionDoc>
  {
    if guild.Some? && dbOk then MentionRows(us, msgId, channel, guild.value, mentionedBy, now, content) else []
  }

  /** Storing one more notified user's mention extends the stored rows by that user's row. */
  lemma RecordedStep(stored0: seq<MentionDoc>, before: seq<MentionDoc>, after: seq<MentionDoc>, us: seq<int>, u: int,
                     hit: bool, msgId: int, channel: int, guild: Option<int>, dbOk: bool, mentionedBy: int, now: int,
                     content: string)
    requires before == stored0 + Recorded(us, msgId, channel, guild, dbOk, mentionedBy, now, content)
    requires after == if hit && guild.Some? && dbOk
                      then before + [MentionDoc(u, msgId, channel, guild.value, mentionedBy, now, Take(content, MaxContent))]
                      else before
    ensures after == stored0 + Recorded(if hit then us + [u] else us, msgId, channel, guild, dbOk, mentionedBy, now, content)
  {
    if hit && guild.Some? && dbOk {
      assert (us + [u])[..|us|] == us;
    }
  }

  /** A mention `_handle_mentions` answers: a member who is no bot with an AFK that applies where the message is. */
  predicate Answers(m: (int, bool), guild: Option<int>, cache: map<int, Record>, db: map<int, Doc>, now: int, dbOk: bool)
  {
    var s := Seen(cache, db, m.0, now, dbOk);
    !m.1 && s.Some? && Applies(s.value, guild)
  }

  /**
   * The first mention from `from` on that is answered and whose notice
   * cannot be sent, or `|mentioned|` when every notice goes out. The send
   * has no try of its own, so its error leaves `_handle_mentions` there.
   */
  function FirstFailedNotice(mentioned: seq<(int, bool)>, guild: Option<int>, cache: map<int, Record>, db: map<int, Doc>,
                             now: int, dbOk: bool, noticeOk: nat -> bool, from: nat): (r: nat)
    requires from <= |mentioned|
    ensures from <= r <= |mentioned|
    ensures forall j :: from <= j < r ==> !(Answers(mentioned[j], guild, cache, db, now, dbOk) && !noticeOk(j))
    ensures r < |mentioned| ==> Answers(mentioned[r], guild, cache, db, now, dbOk) && !noticeOk(r)
    decreases |mentioned| - from
  {
    if from == |mentioned| then from
    else if Answers(mentioned[from], guild, cache, db, now, dbOk) && !noticeOk(from) then from
    else FirstFailedNotice(mentioned, guild, cache, db, now, dbOk, noticeOk, from + 1)
  }

  /** How many mentions `_handle_mentions` gets through: all of them, or up to and including the one whose notice fails. */
  function Handled(mentioned: seq<(int, bool)>, guild: Option<int>, cache: map<int, Record>, db: map<int, Doc>,
                   now: int, dbOk: bool, noticeOk: nat -> bool): (k: nat)
    ensures k <= |mentioned|
  {
    var f := FirstFailedNotice(mentioned, guild, cache, db, now, dbOk, noticeOk, 0);
    if f < |mentioned| then f + 1 else |mentioned|
  }

  /** The first failing notice is the one the scan meets first. */
  lemma FirstFailedNoticeIs(mentioned: seq<(int, bool)>, guild: Option<int>, cache: map<int, Record>, db: map<int, Doc>,
                            now: int, dbOk: bool, noticeOk: nat -> bool, k: nat)
    requires k <= |mentioned|
    requires forall j :: 0 <= j < k ==> !(Answers(mentioned[j], guild, cache, db, now, dbOk) && !noticeOk(j))
    requires k < |mentioned| ==> Answers(mentioned[k], guild, cache, db, now, dbOk) && !noticeOk(k)
    ensures FirstFailedNotice(mentioned, guild, cache, db, now, dbOk, noticeOk, 0) == k
  {
  }

  /** A notice that cannot be sent ends the handling: no mention after it is looked at. */
  lemma FailedNoticeStops(mentioned: seq<(int, bool)>, guild: Option<int>, cache: map<int, Record>, db: map<int, Doc>,
                          now: int, dbOk: bool, noticeOk: nat -> bool, i: nat)
    requires i < |mentioned| && Answers(mentioned[i], guild, cache, db, now, dbOk) && !noticeOk(i)
    ensures Handled(mentioned, guild, cache, db, now, dbOk, noticeOk) <= i + 1
    ensures FirstFailedNotice(mentioned, guild, cache, db, now, dbOk, noticeOk, 0) < |mentioned|
  {
  }

  /** One more mention without a failing notice extends the clean prefix; one with a failing notice is the first. */
  lemma NoticeStep(mentioned: seq<(int, bool)>, guild: Option<int>, cache: map<int, Record>, db: map<int, Doc>,
                   now: int, dbOk: bool, noticeOk: nat -> bool, i: nat)
    requires i < |mentioned|
    requires FirstFailedNotice(mentioned, guild, cache, db, now, dbOk, noticeOk, 0) >= i
    ensures Answers(mentioned[i], guild, cache, db, now, dbOk) && !noticeOk(i) ==>
              FirstFailedNotice(mentioned, guild, cache, db, now, dbOk, noticeOk, 0) == i
    ensures !(Answers(mentioned[i], guild, cache, db, now, dbOk) && !noticeOk(i)) ==>
              FirstFailedNotice(mentioned, guild, cache, db, now, dbOk, noticeOk, 0) > i
  {
  }

  /** When every answered mention's notice goes out, every mention is handled. */
  lemma AllNoticesSent(mentioned: seq<(int, bool)>, guild: Option<int>, cache: map<int, Record>, db: map<int, Doc>,
                       now: int, dbOk: bool, noticeOk: nat -> bool)
    requires forall j :: 0 <= j < |mentioned| && Answers(mentioned[j], guild, cache, db, now, dbOk) ==> noticeOk(j)
    ensures FirstFailedNotice(mentioned, guild, cache, db, now, dbOk, noticeOk, 0) == |mentioned|
    ensures Handled(mentioned, guild, cache, db, now, dbOk, noticeOk) == |mentioned|
  {
    FirstFailedNoticeIs(mentioned, guild, cache, db, now, dbOk, noticeOk, |mentioned|);
  }

  /** `NoticeFailed`: the "no longer AFK" notice could not be sent, so the rest of the return did not happen. */
  datatype ReturnOutcome = NotAfk | ElsewhereOnly | NoticeFailed | Returned(shown: seq<MentionDoc>, removed: bool, edits: seq<(int, string)>)

  /** The cache after `get_afk_status` for `u`: a fresh entry stays, a stale one is replaced by the stored record or dropped. */
  function CacheAfterGet(cache: map<int, Record>, db: map<int, Doc>, u: int, now: int, dbOk: bool): (r: map<int, Record>)
    ensures forall v :: v != u ==> (v in r <==> v in cache) && (v in r ==> r[v] == cache[v])
    ensures Seen(cache, db, u, now, dbOk).Some? <==> u in r
    ensures u in r ==> Seen(cache, db, u, now, dbOk) == Some(r[u])
  {
    if u in cache && Fresh(cache[u], now) then cache
    else if dbOk && u in db then cache[u := db[u].rec]
    else cache - {u}
  }

  /** The cache after the lookups of `_handle_mentions`: one `get_afk_status` per mentioned member who is no bot. */
  function CacheAfterMentions(cache: map<int, Record>, db: map<int, Doc>, mentioned: seq<(int, bool)>, now: int,
                              dbOk: bool): (r: map<int, Record>)
    ensures forall v :: (forall m :: m in mentioned && !m.1 ==> m.0 != v) ==>
                          (v in r <==> v in cache) && (v in r ==> r[v] == cache[v])
  {
    if mentioned == [] then cache
    else
      var (u, bot) := mentioned[|mentioned| - 1];
      var prev := CacheAfterMentions(cache, db, mentioned[..|mentioned| - 1], now, dbOk);
      assert forall m :: m in mentioned[..|mentioned| - 1] ==> m in mentioned;
      if bot then prev else CacheAfterGet(prev, db, u, now, dbOk)
  }

  /**
   * The `server` branch of `remove_afk_status`: in the AFK's own server,
   * when the member is there, a name is remembered and the bot may manage
   * nicknames, the remembered name is given back.
   */
  function ServerRestore(guilds: seq<GuildView>, serverId: Option<int>, original: Option<string>): (r: seq<(int, string)>)
    ensures var f := if serverId.Some? then FindGuild(guilds, serverId.value) else None;
            && (r != [] <==> serverId.Some? && serverId.value != 0 && f.Some? && f.value.member.Some?
                             && original.Some? && original.value != "" && f.value.manage && f.value.editOk)
            && (r != [] ==> r == [(serverId.value, original.value)])
  {
    if serverId.Some? && serverId.value != 0 then
      var f := FindGuild(guilds, serverId.value);
      if f.Some? && f.value.member.Some? && original.Some? && original.value != "" && f.value.manage && f.value.editOk
      then [(f.value.id, original.value)] else []
    else []
  }

  /** The nickname edits `remove_afk_status` makes for a stored document, by its scope. */
  function RestoreEdits(d: Doc, guilds: seq<GuildView>): (r: seq<(int, string)>)
    ensures forall e :: e in r ==> d.originalNick.Some? && e.1 == d.originalNick.value && e.1 != ""
    ensures d.rec.scope == ServerOnly && r != [] ==>
              d.rec.serverId.Some? && d.originalNick.Some? && r == [(d.rec.serverId.value, d.originalNick.value)]
    ensures d.rec.scope != ServerOnly ==> forall e :: e in r ==> exists g :: g in guilds && g.id == e.0
  {
    if d.rec.scope == ServerOnly then ServerRestore(guilds, d.rec.serverId, d.originalNick)
    else if d.originalNick.Some? then RestorePlan(guilds, d.originalNick.value)
    else []
  }

  /**
   * `_handle_afk_return` on a state: the outcome, and the cache, documents
   * and mentions afterwards.
   */
  function ReturnEffect(cache: map<int, Record>, db: map<int, Doc>, mentions: seq<MentionDoc>, u: int, guild: Option<int>,
                        now: int, guilds: seq<GuildView>, dbOk: bool, returnSent: bool)
    : (r: (ReturnOutcome, map<int, Record>, map<int, Doc>, seq<MentionDoc>))
    ensures var s := Seen(cache, db, u, now, dbOk);
            && (r.0 == NotAfk <==> s.None?)
            && (r.0 == ElsewhereOnly <==> s.Some? && !Applies(s.value, guild))
            && (r.0 == NoticeFailed <==> s.Some? && Applies(s.value, guild) && !returnSent)
            && (!r.0.Returned? ==> r.1 == CacheAfterGet(cache, db, u, now, dbOk) && r.2 == db && r.3 == mentions)
            && (r.0.Returned? && dbOk ==> u !in r.1 && r.2 == db - {u})
            && (r.0.Returned? && r.0.shown != [] ==> r.3 == Filter(mentions, (m: MentionDoc) => m.user != u))
  {
    var s := Seen(cache, db, u, now, dbOk);
    var c1 := CacheAfterGet(cache, db, u, now, dbOk);
    if s.None? then (NotAfk, c1, db, mentions)
    else if !Applies(s.value, guild) then (ElsewhereOnly, c1, db, mentions)
    else if !returnSent then (NoticeFailed, c1, db, mentions)
    else
      var shown := if dbOk then Summary(mentions, u, s.value) else [];
      var m1 := if shown != [] then Filter(mentions, (m: MentionDoc) => m.user != u) else mentions;
      if dbOk then (Returned(shown, u in db, if u in db then RestoreEdits(db[u], guilds) else []), c1 - {u}, db - {u}, m1)
      else (Returned(shown, false, []), c1, db, m1)
  }

  // ---------------------------------------------------------------------------
  // The cog
  // ---------------------------------------------------------------------------

  class AfkCog {
    /** `_cache`. */
    var cache: map<int, Record>
    /** The `afk` collection, by user. */
    var db: map<int, Doc>
    /** The `afk_mentions` collection. */
    var mentions: seq<MentionDoc>

    /** A cached record is the stored one. */
    predicate Valid()
      reads this
    {
      forall u :: u in cache ==> u in db && db[u].rec == cache[u]
    }

    constructor()
      ensures Valid() && cache == map[] && db == map[] && mentions == []
    {
      cache := map[];
      db := map[];
      mentions := [];
    }

    /** `clean_cache`. */
    method CleanCache(now: int)
      requires Valid()
      modifies this
      ensures Valid() && cache == Cleaned(old(cache), now) && db == old(db) && mentions == old(mentions)
    {
      cache := Cleaned(cache, now);
    }

    /** `cleanup_mentions`: mentions more than seven days old are deleted. */
    method CleanupMentions(now: int, dbOk: bool)
      modifies this
      ensures cache == old(cache) && db == old(db)
      ensures mentions == if dbOk then Filter(old(mentions), (m: MentionDoc) => !(m.createdAt < now - RetentionSeconds))
                          else old(mentions)
    {
      if dbOk {
        mentions := Filter(mentions, (m: MentionDoc) => !(m.createdAt < now - RetentionSeconds));
      }
    }

    /**
     * `get_afk_status`: a fresh cached record is answered at once; a stale
     * one is dropped and the database asked, whose answer is cached. Every
     * later answer at the same time stays what it was.
     */
    method GetAfkStatus(u: int, now: int, dbOk: bool) returns (r: Option<Record>)
      requires Valid()
      modifies this
      ensures Valid() && db == old(db) && mentions == old(mentions)
      ensures r == Seen(old(cache), db, u, now, dbOk)
      ensures forall v :: Seen(cache, db, v, now, dbOk) == Seen(old(cache), db, v, now, dbOk)
      ensures cache == if u in old(cache) && Fresh(old(cache)[u], now) then old(cache)
                       else if dbOk && u in db then old(cache)[u := db[u].rec]
                       else old(cache) - {u}
      ensures cache == CacheAfterGet(old(cache), db, u, now, dbOk)
    {
      if u in cache {
        if Fresh(cache[u], now) {
          return Some(cache[u]);
        }
        cache := cache - {u};
      }
      if dbOk && u in db {
        cache := cache[u := db[u].rec];
        return Some(db[u].rec);
      }
      return None;
    }

    /**
     * `set_afk_status`: the reason is stripped, escaped and cut at 100; the
     * nickname rule runs for the scope (its edits happen even when the
     * write then fails); the document and the cache entry are written
     * together, or neither.
     */
    method SetAfkStatus(u: int, reason: string, scope: Scope, serverId: Option<int>, now: int, guilds: seq<GuildView>,
                        escape: string -> string, writeOk: bool)
      returns (ok: bool, edits: seq<(int, string)>)
      requires Valid()
      modifies this
      ensures Valid() && mentions == old(mentions) && ok == writeOk
      ensures var rec := Record(Take(escape(Strip(reason)), MaxReason), now, scope, if scope == ServerOnly then serverId else None);
              && (ok ==> u in db && db[u].rec == rec && cache == old(cache)[u := rec])
              && (ok ==> db == old(db)[u := db[u]])
              && (!ok ==> db == old(db) && cache == old(cache))
      ensures ok ==> db[u] == Doc(Record(Take(escape(Strip(reason)), MaxReason), now, scope, if scope == ServerOnly then serverId else None),
                                  NickPlan(scope, serverId, guilds).0, NickPlan(scope, serverId, guilds).1)
      ensures edits == NickPlan(scope, serverId, guilds).2
      ensures scope == ServerOnly ==> |edits| <= 1
      ensures forall e :: e in edits ==> StartsWith(e.1, Prefix) && |e.1| <= MaxNick
    {
      var text := Take(escape(Strip(reason)), MaxReason);
      var original: Option<string> := None;
      var newNick: Option<string> := None;
      edits := [];
      if scope == ServerOnly && serverId.Some? && serverId.value != 0 {
        var plan := ServerPlan(guilds, serverId.value);
        original, newNick, edits := plan.0, plan.1, plan.2;
      } else if scope == Global {
        original, newNick, edits := RenameAll(guilds);
      }
      var rec := Record(text, now, scope, if scope == ServerOnly then serverId else None);
      if !writeOk {
        return false, edits;
      }
      db := db[u := Doc(rec, original, newNick)];
      cache := cache[u := rec];
      ok := true;
    }

    /**
     * `remove_afk_status`: the remembered name is put back (in the one
     * server, or wherever the prefix shows), then the document and the
     * cache entry go; the answer is whether a document was deleted.
     */
    method RemoveAfkStatus(u: int, guilds: seq<GuildView>, dbOk: bool) returns (removed: bool, edits: seq<(int, string)>)
      requires Valid()
      modifies this
      ensures Valid() && mentions == old(mentions)
      ensures !dbOk ==> !removed && edits == [] && db == old(db) && cache == old(cache)
      ensures dbOk ==> removed == (u in old(db)) && db == old(db) - {u} && cache == old(cache) - {u}
      ensures dbOk && u in old(db) && old(db)[u].rec.scope == Global && old(db)[u].originalNick.Some? ==>
                edits == RestorePlan(guilds, old(db)[u].originalNick.value)
      ensures forall e :: e in edits ==> u in old(db) && old(db)[u].originalNick == Some(e.1)
      ensures dbOk && u in old(db) ==> edits == RestoreEdits(old(db)[u], guilds)
      ensures dbOk && u in old(db) && old(db)[u].rec.scope == ServerOnly ==>
                edits == ServerRestore(guilds, old(db)[u].rec.serverId, old(db)[u].originalNick)
      ensures u !in old(db) ==> edits == []
    {
      edits := [];
      if !dbOk {
        return false, [];
      }
      if u in db {
        var d := db[u];
        if d.rec.scope == ServerOnly && d.rec.serverId.Some? && d.rec.serverId.value != 0 {
          var found := FindGuild(guilds, d.rec.serverId.value);
          if found.Some? && found.value.member.Some? && d.originalNick.Some? && d.originalNick.value != ""
             && found.value.manage && found.value.editOk {
            edits := [(found.value.id, d.originalNick.value)];
          }
        } else if d.rec.scope == Global && d.originalNick.Some? {
          edits := RestoreAll(guilds, d.originalNick.value);
        }
      }
      removed := u in db;
      db := db - {u};
      cache := cache - {u};
    }

    /** One mention of `_handle_mentions`: answered when the user is no bot and an AFK applies here. */
    method NoteMention(v: int, bot: bool, guild: Option<int>, channel: int, msgId: int, author: int, content: string,
                       now: int, dbOk: bool)
      returns (hit: bool)
      requires Valid()
      modifies this
      ensures Valid() && db == old(db)
      ensures var s := Seen(old(cache), db, v, now, dbOk); hit == (!bot && s.Some? && Applies(s.value, guild))
      ensures forall w :: Seen(cache, db, w, now, dbOk) == Seen(old(cache), db, w, now, dbOk)
      ensures cache == if bot then old(cache) else CacheAfterGet(old(cache), db, v, now, dbOk)
      ensures mentions == if hit && guild.Some? && dbOk
                          then old(mentions) + [MentionDoc(v, msgId, channel, guild.value, author, now, Take(content, MaxContent))]
                          else old(mentions)
    {
      if bot {
        return false;
      }
      var s := GetAfkStatus(v, now, dbOk);
      hit := s.Some? && Applies(s.value, guild);
      if hit && guild.Some? && dbOk {
        mentions := mentions + [MentionDoc(v, msgId, channel, guild.value, author, now, Take(content, MaxContent))];
      }
    }

    /** One turn of the `_handle_mentions` loop: mention `i` is looked up, recorded and answered. */
    method MentionAt(mentioned: seq<(int, bool)>, i: nat, guild: Option<int>, channel: int, msgId: int, author: int,
                     content: string, now: int, dbOk: bool, noticeOk: nat -> bool, ghost cache0: map<int, Record>,
                     ghost db0: map<int, Doc>, ghost mentions0: seq<MentionDoc>, notified0: seq<int>)
      returns (notified: seq<int>, sent: bool)
      requires Valid() && db == db0 && i < |mentioned|
      requires forall v :: Seen(cache, db0, v, now, dbOk) == Seen(cache0, db0, v, now, dbOk)
      requires FirstFailedNotice(mentioned, guild, cache0, db0, now, dbOk, noticeOk, 0) >= i
      requires notified0 == Notified(mentioned[..i], guild, cache0, db0, now, dbOk)
      requires mentions == mentions0 + Recorded(notified0, msgId, channel, guild, dbOk, author, now, content)
      requires cache == CacheAfterMentions(cache0, db0, mentioned[..i], now, dbOk)
      modifies this
      ensures Valid() && db == db0
      ensures forall v :: Seen(cache, db0, v, now, dbOk) == Seen(cache0, db0, v, now, dbOk)
      ensures sent ==> FirstFailedNotice(mentioned, guild, cache0, db0, now, dbOk, noticeOk, 0) >= i + 1
      ensures !sent ==> FirstFailedNotice(mentioned, guild, cache0, db0, now, dbOk, noticeOk, 0) == i
      ensures notified == Notified(mentioned[..i + 1], guild, cache0, db0, now, dbOk)
      ensures mentions == mentions0 + Recorded(notified, msgId, channel, guild, dbOk, author, now, content)
      ensures cache == CacheAfterMentions(cache0, db0, mentioned[..i + 1], now, dbOk)
    {
      assert mentioned[..i + 1][..i] == mentioned[..i];
      var v, bot := mentioned[i].0, mentioned[i].1;
      ghost var before := mentions;
      var hit := NoteMention(v, bot, guild, channel, msgId, author, content, now, dbOk);
      NotifiedStep(mentioned, i, guild, cache0, db0, now, dbOk);
      RecordedStep(mentions0, before, mentions, notified0, v, hit, msgId, channel, guild, dbOk, author, now, content);
      NoticeStep(mentioned, guild, cache0, db0, now, dbOk, noticeOk, i);
      notified := if hit then notified0 + [v] else notified0;
      sent := !(hit && !noticeOk(i));
    }

    /**
     * `_handle_mentions`: every non-bot mention with an AFK status that
     * applies here is answered, and recorded when the message is in a
     * server and the database takes it. The record comes before the
     * notice, and a notice that cannot be sent (`noticeOk(i)` false for
     * mention i) ends the loop: `sent` is false and the later mentions
     * are not looked at.
     */
    method HandleMentions(mentioned: seq<(int, bool)>, guild: Option<int>, channel: int, msgId: int, author: int,
                          content: string, now: int, dbOk: bool, noticeOk: nat -> bool)
      returns (notified: seq<int>, sent: bool)
      requires Valid()
      modifies this
      ensures Valid() && db == old(db)
      ensures sent <==> FirstFailedNotice(mentioned, guild, old(cache), db, now, dbOk, noticeOk, 0) == |mentioned|
      ensures var k := Handled(mentioned, guild, old(cache), db, now, dbOk, noticeOk);
              && notified == Notified(mentioned[..k], guild, old(cache), db, now, dbOk)
              && mentions == old(mentions) + Recorded(notified, msgId, channel, guild, dbOk, author, now, content)
              && cache == CacheAfterMentions(old(cache), db, mentioned[..k], now, dbOk)
    {
      notified := [];
      sent := true;
      ghost var cache0, db0, mentions0 := cache, db, mentions;
      var i := 0;
      while i < |mentioned| && sent
        invariant 0 <= i <= |mentioned|
        invariant Valid() && db == db0
        invariant forall v :: Seen(cache, db0, v, now, dbOk) == Seen(cache0, db0, v, now, dbOk)
        invariant sent ==> FirstFailedNotice(mentioned, guild, cache0, db0, now, dbOk, noticeOk, 0) >= i
        invariant !sent ==> i >= 1 && FirstFailedNotice(mentioned, guild, cache0, db0, now, dbOk, noticeOk, 0) == i - 1
        invariant notified == Notified(mentioned[..i], guild, cache0, db0, now, dbOk)
        invariant mentions == mentions0 + Recorded(notified, msgId, channel, guild, dbOk, author, now, content)
        invariant cache == CacheAfterMentions(cache0, db0, mentioned[..i], now, dbOk)
      {
        notified, sent := MentionAt(mentioned, i, guild, channel, msgId, author, content, now, dbOk, noticeOk,
                                    cache0, db0, mentions0, notified);
        i := i + 1;
      }
      assert Handled(mentioned, guild, cache0, db0, now, dbOk, noticeOk) == i;
    }

    /**
     * `_handle_afk_return`: an AFK that applies here ends; the mentions
     * since it began are shown when there are any, after which all of the
     * user's stored mentions are deleted. The "no longer AFK" notice comes
     * first and has no try of its own: when it cannot be sent
     * (`returnSent` false) nothing else happens.
     */
    method HandleAfkReturn(u: int, guild: Option<int>, now: int, guilds: seq<GuildView>, dbOk: bool, returnSent: bool)
      returns (o: ReturnOutcome)
      requires Valid()
      modifies this
      ensures Valid()
      ensures var s := Seen(old(cache), old(db), u, now, dbOk);
              && (o == NotAfk <==> s.None?)
              && (o == ElsewhereOnly <==> s.Some? && !Applies(s.value, guild))
              && (o == NoticeFailed <==> s.Some? && Applies(s.value, guild) && !returnSent)
              && (o.Returned? ==> o.shown == (if dbOk then Summary(old(mentions), u, s.value) else []))
      ensures !o.Returned? ==> db == old(db) && mentions == old(mentions)
      ensures o.Returned? && o.shown != [] ==> mentions == Filter(old(mentions), (m: MentionDoc) => m.user != u)
      ensures o.Returned? && o.shown == [] ==> mentions == old(mentions)
      ensures o.Returned? && dbOk ==> u !in db && u !in cache
      ensures (o, cache, db, mentions) == ReturnEffect(old(cache), old(db), old(mentions), u, guild, now, guilds, dbOk, returnSent)
    {
      var s := GetAfkStatus(u, now, dbOk);
      if s.None? {
        return NotAfk;
      }
      if !Applies(s.value, guild) {
        return ElsewhereOnly;
      }
      if !returnSent {
        return NoticeFailed;
      }
      var shown := if dbOk then Summary(mentions, u, s.value) else [];
      if shown != [] {
        mentions := Filter(mentions, (m: MentionDoc) => m.user != u);
      }
      var removed, edits := RemoveAfkStatus(u, guilds, dbOk);
      o := Returned(shown, removed, edits);
    }

    /**
     * `on_message`: bots and command invocations are left alone; otherwise
     * the mentions are handled first, then the author's own return. One
     * try surrounds both, so a notice that cannot be sent while handling
     * the mentions skips the return altogether (`back` is none).
     */
    method OnMessage(author: int, bot: bool, isCommand: bool, mentioned: seq<(int, bool)>, guild: Option<int>, channel: int,
                     msgId: int, content: string, now: int, guilds: seq<GuildView>, dbOk: bool, noticeOk: nat -> bool,
                     returnSent: bool)
      returns (notified: seq<int>, back: Option<ReturnOutcome>)
      requires Valid()
      modifies this
      ensures Valid()
      ensures bot || isCommand ==> notified == [] && back.None? && cache == old(cache) && db == old(db)
                                   && mentions == old(mentions)
      ensures !(bot || isCommand) ==>
                var k := Handled(mentioned, guild, old(cache), old(db), now, dbOk, noticeOk);
                && notified == Notified(mentioned[..k], guild, old(cache), old(db), now, dbOk)
                && (back.Some? <==> FirstFailedNotice(mentioned, guild, old(cache), old(db), now, dbOk, noticeOk, 0) == |mentioned|)
      ensures !(bot || isCommand) ==>
                var k := Handled(mentioned, guild, old(cache), old(db), now, dbOk, noticeOk);
                var c1 := CacheAfterMentions(old(cache), old(db), mentioned[..k], now, dbOk);
                var m1 := old(mentions) + Recorded(notified, msgId, channel, guild, dbOk, author, now, content);
                if back.Some? then (back.value, cache, db, mentions) == ReturnEffect(c1, old(db), m1, author, guild, now, guilds, dbOk, returnSent)
                else cache == c1 && db == old(db) && mentions == m1
    {
      if bot || isCommand {
        return [], None;
      }
      notified := [];
      var sent := true;
      if mentioned != [] {
        notified, sent := HandleMentions(mentioned, guild, channel, msgId, author, content, now, dbOk, noticeOk);
      } else {
        assert mentioned[..0] == mentioned;
        assert mentions + Recorded([], msgId, channel, guild, dbOk, author, now, content) == mentions;
      }
      if !sent {
        return notified, None;
      }
      var o := HandleAfkReturn(author, guild, now, guilds, dbOk, returnSent);
      back := Some(o);
    }
  }

  // ---------------------------------------------------------------------------
  // The mention paginator
  // ---------------------------------------------------------------------------

  /** `MentionPaginator`: one mention per page, buttons only for the user who returned. */
  class MentionPaginator {
    const author: int
    const total: nat
    var current: int
    var prevDisabled: bool
    var nextDisabled: bool

    predicate Valid()
      reads this
    {
      0 <= current < total
    }

    /** It is only opened on a non-empty list; the back button starts disabled, the forward one enabled. */
    constructor(author: int, total: nat)
      requires total >= 1
      ensures Valid() && this.author == author && this.total == total
      ensures current == 0 && prevDisabled && !nextDisabled
    {
      this.author := author;
      this.total := total;
      current := 0;
      prevDisabled := true;
      nextDisabled := false;
    }

    /** After a press the back button is disabled exactly on the first page and the forward one on the last. */
    predicate ButtonsMatch()
      reads this
    {
      prevDisabled == (current == 0) && nextDisabled == (current == total - 1)
    }

    /** `prev_button`. */
    method Prev(user: int) returns (moved: bool)
      requires Valid()
      modifies this
      ensures Valid()
      ensures user != author ==> !moved && current == old(current) && prevDisabled == old(prevDisabled)
                                 && nextDisabled == old(nextDisabled)
      ensures user == author ==> moved && current == Max(0, old(current) - 1) && ButtonsMatch()
    {
      if user != author {
        return false;
      }
      current := Max(0, current - 1);
      prevDisabled := current == 0;
      nextDisabled := current == total - 1;
      moved := true;
    }

    /** `next_button`. */
    method Next(user: int) returns (moved: bool)
      requires Valid()
      modifies this
      ensures Valid()
      ensures user != author ==> !moved && current == old(current) && prevDisabled == old(prevDisabled)
                                 && nextDisabled == old(nextDisabled)
      ensures user == author ==> moved && current == Min(total - 1, old(current) + 1) && ButtonsMatch()
    {
      if user != author {
        return false;
      }
      current := Min(total - 1, current + 1);
      prevDisabled := current == 0;
      nextDisabled := current == total - 1;
      moved := true;
    }
  }
}
