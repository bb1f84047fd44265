/**
 * `cogs/confess.py`: guild settings behind a 60-second cache, confession
 * reports with reporter dedupe and an automatic ban at three reports, the
 * ban/unban command, and the settings command with its colour check.
 *
 * Ids are integers here; the cog stores them as decimal strings, which
 * changes neither equality nor membership.
 */
module Confess {
  import opened Common

  const CacheSeconds := 60
  const BanThreshold := 3
  const MaxColour := 0xFFFFFF

  /** A `guild_settings` document; a missing key is `None`. */
  datatype Settings = Settings(submissionChannel: Option<int>, logChannel: Option<int>,
                               embedColour: Option<string>, banned: Option<seq<int>>)

  const NoSettings := Settings(None, None, None, None)

  /** `settings.get('banned_users', [])`. */
  function Banned(s: Settings): seq<int>
  {
    if s.banned.Some? then s.banned.value else []
  }

  /** A row of `confessions`: its author, report count and reporters. */
  datatype Confession = Confession(authorId: int, reports: int, reporters: set<int>)

  /** The count only ever moves with the set of distinct reporters. */
  predicate ReportsCounted(c: Confession) { c.reports == |c.reporters| }

  /** A cache entry is used while younger than 60 seconds. */
  predicate Fresh(stamp: int, now: int) { now - stamp < CacheSeconds }

  // ---------------------------------------------------------------------------
  // Reports
  // ---------------------------------------------------------------------------

  /**
   * The conditional update of `add_confession_report`: it matches only a
   * confession the reporter has not reported yet, and then adds the
   * reporter and counts one more report.
   */
  function Reported(c: Confession, reporter: int): (r: Option<Confession>)
    ensures r.Some? <==> reporter !in c.reporters
    ensures r.Some? ==> r.value.authorId == c.authorId && r.value.reporters == c.reporters + {reporter}
                        && r.value.reports == c.reports + 1
    ensures r.Some? && ReportsCounted(c) ==> ReportsCounted(r.value)
  {
    if reporter in c.reporters then None
    else
      assert |c.reporters + {reporter}| == |c.reporters| + 1;
      Some(Confession(c.authorId, c.reports + 1, c.reporters + {reporter}))
  }

  /** A second report by the same member never matches. */
  lemma ReportOnce(c: Confession, reporter: int)
    requires reporter !in c.reporters
    ensures Reported(Reported(c, reporter).value, reporter).None?
  {
  }

  /** Starting from no reports, three distinct reporters are needed to reach the ban threshold. */
  lemma ThresholdNeedsThreeReporters(c: Confession)
    requires ReportsCounted(c) && c.reports >= BanThreshold
    ensures |c.reporters| >= 3
  {
  }

  // ---------------------------------------------------------------------------
  // Ban list
  // ---------------------------------------------------------------------------

  /** `list.remove`: drops the first occurrence, if any. */
  function RemoveFirst(s: seq<int>, x: int): (r: seq<int>)
    ensures x in s ==> |r| == |s| - 1
    ensures x !in s ==> r == s
    ensures forall y :: y in r ==> y in s
    ensures forall y :: y in s && y != x ==> y in r
    ensures NoDup(s) ==> NoDup(r) && x !in r
  {
    if s == [] then []
    else if s[0] == x then s[1..]
    else
      var rest := RemoveFirst(s[1..], x);
      assert forall y :: y in s <==> y == s[0] || y in s[1..];
      assert NoDup(s) ==> NoDup(s[1..]) && s[0] !in s[1..];
      var r := [s[0]] + rest;
      assert forall i :: 1 <= i < |r| ==> r[i] == rest[i - 1];
      r
  }

  datatype BanAction = Ban | Unban

  /** `action.lower()` compared with "ban" and "unban"; anything else is refused. */
  function ParseAction(action: string): (r: Option<BanAction>)
    ensures r == Some(Ban) <==> Lower(action) == "ban"
    ensures r == Some(Unban) <==> Lower(action) == "unban"
  {
    var a := Lower(action);
    if a == "ban" then Some(Ban) else if a == "unban" then Some(Unban) else None
  }

  /** The ban list after an action: appended when absent, first occurrence removed when present. */
  function Applied(banned: seq<int>, u: int, a: BanAction): (r: seq<int>)
    ensures a == Ban ==> u in r && forall y :: y in banned ==> y in r
    ensures a == Unban && NoDup(banned) ==> u !in r
    ensures forall y :: y != u ==> (y in r <==> y in banned)
    ensures NoDup(banned) ==> NoDup(r)
  {
    match a
    case Ban =>
      if u in banned then banned
      else
        assert forall i :: 0 <= i < |banned| ==> banned[i] != u;
        banned + [u]
    case Unban => if u in banned then RemoveFirst(banned, u) else banned
  }

  /** Both actions are idempotent on a list without duplicates. */
  lemma AppliedIdempotent(banned: seq<int>, u: int, a: BanAction)
    requires NoDup(banned)
    ensures Applied(Applied(banned, u, a), u, a) == Applied(banned, u, a)
  {
  }

  // ---------------------------------------------------------------------------
  // Colours
  // ---------------------------------------------------------------------------

  predicate IsHexDigit(c: char)
  {
    '0' <= c <= '9' || 'a' <= c <= 'f' || 'A' <= c <= 'F'
  }

  function HexDigitValue(c: char): nat
    requires IsHexDigit(c)
  {
    if '0' <= c <= '9' then c as int - '0' as int
    else if 'a' <= c <= 'f' then c as int - 'a' as int + 10
    else c as int - 'A' as int + 10
  }

  /** The value of a string of hex digits, most significant first. */
  function HexValue(s: string): nat
    requires forall i :: 0 <= i < |s| ==> IsHexDigit(s[i])
  {
    if s == [] then 0 else HexValue(s[..|s| - 1]) * 16 + HexDigitValue(s[|s| - 1])
  }

  /** The colour text with a leading '#' added when it lacks one. */
  function WithHash(colour: string): (r: string)
    ensures |r| > 0 && r[0] == '#'
    ensures StartsWith(colour, "#") ==> r == colour
    ensures !StartsWith(colour, "#") ==> r == "#" + colour
  {
    if StartsWith(colour, "#") then colour else "#" + colour
  }

  /**
   * `Color.from_str` on a '#' value: the rest must be hex digits worth at
   * most 0xFFFFFF (a three-digit value stands for its doubled digits, which
   * is in range either way).
   */
  predicate ValidColour(s: string)
  {
    |s| >= 2 && s[0] == '#' && (forall i :: 1 <= i < |s| ==> IsHexDigit(s[i])) && HexValue(s[1..]) <= MaxColour
  }

  /**
   * `setup_confess`: the settings are a copy of the current ones; a given
   * channel or log channel replaces the stored one; a given colour is
   * stored with its '#' if it parses, and otherwise the command is refused
   * and nothing is saved.
   */
  function Configured(current: Settings, channel: Option<int>, log: Option<int>, colour: Option<string>)
    : (r: Option<Settings>)
    ensures r.None? <==> colour.Some? && colour.value != "" && !ValidColour(WithHash(colour.value))
    ensures r.Some? ==>
              && r.value.banned == current.banned
              && r.value.submissionChannel == (if channel.Some? then channel else current.submissionChannel)
              && r.value.logChannel == (if log.Some? then log else current.logChannel)
              && r.value.embedColour == (if colour.Some? && colour.value != "" then Some(WithHash(colour.value))
                                         else current.embedColour)
  {
    var s1 := if channel.Some? then current.(submissionChannel := channel) else current;
    var s2 := if log.Some? then s1.(logChannel := log) else s1;
    if colour.Some? && colour.value != "" then
      var c := WithHash(colour.value);
      if ValidColour(c) then Some(s2.(embedColour := Some(c))) else None
    else Some(s2)
  }

  /** A stored colour always carries its '#' and parses. */
  lemma StoredColourValid(current: Settings, channel: Option<int>, log: Option<int>, colour: string)
    requires colour != "" && Configured(current, channel, log, Some(colour)).Some?
    ensures var c := Configured(current, channel, log, Some(colour)).value.embedColour;
            c.Some? && c.value[0] == '#' && ValidColour(c.value)
  {
  }

  // ---------------------------------------------------------------------------
  // The `$set` update
  // ---------------------------------------------------------------------------

  /** The keys a settings document holds. */
  function Keys(s: Settings): set<string>
  {
    (if s.submissionChannel.Some? then {"submission_channel"} else {})
    + (if s.logChannel.Some? then {"log_channel"} else {})
    + (if s.embedColour.Some? then {"embed_color"} else {})
    + (if s.banned.Some? then {"banned_users"} else {})
  }

  /**
   * `update_one` with `$set` and `upsert`: every key the new settings hold
   * replaces the stored one, and a stored key they lack stays.
   */
  function Merge(stored: Settings, s: Settings): (r: Settings)
    ensures Keys(r) == Keys(stored) + Keys(s)
  {
    Settings(if s.submissionChannel.Some? then s.submissionChannel else stored.submissionChannel,
             if s.logChannel.Some? then s.logChannel else stored.logChannel,
             if s.embedColour.Some? then s.embedColour else stored.embedColour,
             if s.banned.Some? then s.banned else stored.banned)
  }

  /** Settings holding every stored key simply replace the document; empty settings leave it. */
  lemma MergeCovering(stored: Settings, s: Settings)
    ensures Keys(stored) <= Keys(s) ==> Merge(stored, s) == s
    ensures Merge(stored, NoSettings) == stored
  {
    if Keys(stored) <= Keys(s) {
      assert stored.submissionChannel.Some? ==> "submission_channel" in Keys(s);
      assert stored.logChannel.Some? ==> "log_channel" in Keys(s);
      assert stored.embedColour.Some? ==> "embed_color" in Keys(s);
      assert stored.banned.Some? ==> "banned_users" in Keys(s);
    }
  }

  /** Writing the same settings twice stores what writing them once does. */
  lemma MergeTwice(stored: Settings, s: Settings)
    ensures Merge(Merge(stored, s), s) == Merge(stored, s)
  {
  }

  /** The copy the settings command saves keeps every key it read. */
  lemma ConfiguredKeepsKeys(current: Settings, channel: Option<int>, log: Option<int>, colour: Option<string>)
    requires Configured(current, channel, log, colour).Some?
    ensures Keys(current) <= Keys(Configured(current, channel, log, colour).value)
  {
  }

  /**
   * After a read that found the document, the settings command stores
   * exactly what it caches; after a failed read it stores only the keys it
   * was given, so the stored ban list stays in the database while the cache
   * holds none.
   */
  lemma SetupAfterRead(stored: Settings, channel: Option<int>, log: Option<int>, colour: Option<string>)
    requires Configured(stored, channel, log, colour).Some? && Configured(NoSettings, channel, log, colour).Some?
    ensures Merge(stored, Configured(stored, channel, log, colour).value) == Configured(stored, channel, log, colour).value
    ensures Merge(stored, Configured(NoSettings, channel, log, colour).value).banned == stored.banned
    ensures Configured(NoSettings, channel, log, colour).value.banned.None?
  {
    ConfiguredKeepsKeys(stored, channel, log, colour);
    MergeCovering(stored, Configured(stored, channel, log, colour).value);
  }

  /** After a failed read a ban stores a list of that member alone, whatever list was stored. */
  lemma BanAfterFailedRead(stored: Settings, u: int)
    ensures Merge(stored, NoSettings.(banned := Some(Applied(Banned(NoSettings), u, Ban)))).banned == Some([u])
  {
    assert Applied([], u, Ban) == [] + [u] == [u];
  }

  /** `LogFailed`: the report embed could not be sent to the log channel, which ends the handler before anything is recorded. */
  datatype ReportReply = NoContent | AlreadyReported | Removed | Submitted | LogFailed

  /**
   * Whether the report stops at the log channel: one is configured, the
   * server still has it (`logFound`), and sending the report embed there
   * raises (`logSent` false), with no try around the send.
   */
  predicate LogBlocks(read: Settings, logFound: bool, logSent: bool)
  {
    read.logChannel.Some? && logFound && !logSent
  }
  datatype BanReply = BanDone | UnbanDone | InvalidAction
  datatype SetupReply = Updated | InvalidColour

  /** The settings store, its cache and the confessions. */
  class ConfigManager {
    var db: map<int, Settings>
    var cache: map<int, (Settings, int)>
    var confessions: map<(int, int), Confession>

    /** Report counts match distinct reporters, and no ban list holds an id twice. */
    ghost predicate Valid()
      reads this
    {
      && (forall k :: k in confessions ==> ReportsCounted(confessions[k]))
      && (forall g :: g in db ==> NoDup(Banned(db[g])))
      && (forall g :: g in cache ==> NoDup(Banned(cache[g].0)))
    }

    constructor()
      ensures Valid() && db == map[] && cache == map[] && confessions == map[]
    {
      db, cache, confessions := map[], map[], map[];
    }

    /** The stored document, or `{}` when the guild has none. */
    function Stored(g: int): Settings
      reads this
    {
      if g in db then db[g] else NoSettings
    }

    /** Whether the guild's cache entry is used as is. */
    predicate Hit(g: int, now: int)
      reads this
    {
      g in cache && Fresh(cache[g].1, now)
    }

    /** What `get_guild_settings` returns: the fresh cache entry, else the stored document, else `{}` on an error. */
    function Read(g: int, now: int, dbOk: bool): (s: Settings)
      reads this
      ensures Hit(g, now) ==> s == cache[g].0
      ensures s != NoSettings ==> Hit(g, now) || (dbOk && g in db && s == db[g])
    {
      if Hit(g, now) then cache[g].0 else if dbOk then Stored(g) else NoSettings
    }

    /**
     * The cache after `get_guild_settings`: a document read from the database
     * is cached now, so the entry then holds what the read returned and is
     * fresh; other servers' entries are untouched, and a failed read caches
     * nothing.
     */
    function CacheAfterRead(g: int, now: int, dbOk: bool): (c: map<int, (Settings, int)>)
      reads this
      ensures forall k :: k != g ==> (k in c <==> k in cache) && (k in c ==> c[k] == cache[k])
      ensures Hit(g, now) || dbOk ==> g in c && c[g].0 == Read(g, now, dbOk) && Fresh(c[g].1, now)
      ensures !Hit(g, now) && !dbOk ==> c == cache
    {
      if !Hit(g, now) && dbOk then cache[g := (Stored(g), now)] else cache
    }

    /**
     * `get_guild_settings`: a fresh cache entry is returned as is;
     * otherwise the stored document (or `{}`) is fetched and cached with
     * the current time; on a database error `{}` is returned and nothing is
     * cached. `cached` says whether the result is the cache's own entry.
     */
    method GetGuildSettings(g: int, now: int, dbOk: bool) returns (s: Settings, cached: bool)
      requires Valid()
      modifies this
      ensures Valid() && db == old(db) && confessions == old(confessions)
      ensures g in old(cache) && Fresh(old(cache)[g].1, now) ==> s == old(cache)[g].0 && cache == old(cache) && cached
      ensures !(g in old(cache) && Fresh(old(cache)[g].1, now)) ==>
                if dbOk then s == Stored(g) && cache == old(cache)[g := (s, now)] && cached
                else s == NoSettings && cache == old(cache) && !cached
      ensures s == old(Read(g, now, dbOk)) && cache == old(CacheAfterRead(g, now, dbOk))
      ensures cached <==> old(Hit(g, now)) || dbOk
      ensures cached ==> g in cache && cache[g].0 == s
    {
      if g in cache && Fresh(cache[g].1, now) {
        return cache[g].0, true;
      }
      if !dbOk {
        return NoSettings, false;
      }
      s := Stored(g);
      cache := cache[g := (s, now)];
      cached := true;
    }

    /**
     * `update_guild_settings`: the keys of the settings are `$set` on the
     * stored document, and the settings themselves are cached with the
     * current time; an error changes nothing.
     */
    method UpdateGuildSettings(g: int, s: Settings, now: int, dbOk: bool)
      requires Valid() && NoDup(Banned(s))
      modifies this
      ensures Valid() && confessions == old(confessions)
      ensures db == if dbOk then old(db)[g := Merge(old(Stored(g)), s)] else old(db)
      ensures cache == if dbOk then old(cache)[g := (s, now)] else old(cache)
    {
      if dbOk {
        db := db[g := Merge(Stored(g), s)];
        cache := cache[g := (s, now)];
      }
    }

    /**
     * The returned settings are the cache's own object, so a change made to
     * its ban list lands in the cache before, and whether or not, it is
     * written to the database.
     */
    method MutateCached(g: int, banned: seq<int>)
      requires Valid() && NoDup(banned) && g in cache
      modifies this
      ensures Valid() && db == old(db) && confessions == old(confessions)
      ensures cache == old(cache)[g := (old(cache)[g].0.(banned := Some(banned)), old(cache)[g].1)]
    {
      cache := cache[g := (cache[g].0.(banned := Some(banned)), cache[g].1)];
    }

    /**
     * `add_confession_report`: the conditional update; when it matches
     * nothing, the confession's current count (0 if it is missing) with
     * `duplicate` set; on a database error (0, not duplicate).
     */
    method AddConfessionReport(g: int, m: int, reporter: int, dbOk: bool) returns (count: int, duplicate: bool)
      requires Valid()
      modifies this
      ensures Valid() && db == old(db) && cache == old(cache)
      ensures !dbOk ==> count == 0 && !duplicate && confessions == old(confessions)
      ensures dbOk ==> (!duplicate <==> (g, m) in old(confessions) && reporter !in old(confessions)[(g, m)].reporters)
      ensures dbOk && !duplicate ==>
                confessions == old(confessions)[(g, m) := Reported(old(confessions)[(g, m)], reporter).value]
                && count == confessions[(g, m)].reports
      ensures dbOk && duplicate ==>
                && confessions == old(confessions)
                && count == (if (g, m) in old(confessions) then old(confessions)[(g, m)].reports else 0)
    {
      if !dbOk {
        return 0, false;
      }
      if (g, m) in confessions {
        var r := Reported(confessions[(g, m)], reporter);
        if r.Some? {
          confessions := confessions[(g, m) := r.value];
          return r.value.reports, false;
        }
        return confessions[(g, m)].reports, true;
      }
      return 0, true;
    }

    /** Whether a report is new: the report write works and the member has not reported the confession. */
    predicate NewReport(g: int, m: int, reporter: int, reportOk: bool)
      reads this
    {
      reportOk && (g, m) in confessions && reporter !in confessions[(g, m)].reporters
    }

    /**
     * The ban step of a report: the report is new, reaches three, the
     * confession is read back, and its author is not yet in the ban list
     * of the settings read.
     */
    predicate BansAuthor(g: int, m: int, reporter: int, read: Settings, reportOk: bool, fetchOk: bool)
      reads this
    {
      NewReport(g, m, reporter, reportOk) && confessions[(g, m)].reports + 1 >= BanThreshold && fetchOk
      && confessions[(g, m)].authorId !in Banned(read)
    }

    /**
     * The Report button: a message without an embed is refused; otherwise
     * the settings are read and the report is recorded, and at three
     * reports or more the author is appended to the ban list of the
     * settings read (in the cached object itself when it holds one) and
     * those settings are saved. Before the report is recorded it is sent
     * to the configured log channel when the server has it; a failed send
     * ends the handler there.
     */
    method Report(g: int, m: int, reporter: int, hasEmbed: bool, now: int, settingsOk: bool, logFound: bool,
                  logSent: bool, reportOk: bool, fetchOk: bool, updateOk: bool) returns (r: ReportReply)
      requires Valid()
      modifies this
      ensures Valid()
      ensures r == NoContent <==> !hasEmbed
      ensures !hasEmbed ==> db == old(db) && cache == old(cache) && confessions == old(confessions)
      ensures r == LogFailed <==> hasEmbed && LogBlocks(old(Read(g, now, settingsOk)), logFound, logSent)
      ensures r == LogFailed ==>
                db == old(db) && cache == old(CacheAfterRead(g, now, settingsOk)) && confessions == old(confessions)
      ensures hasEmbed && r != LogFailed && reportOk ==>
                (r == AlreadyReported <==> (g, m) !in old(confessions) || reporter in old(confessions)[(g, m)].reporters)
      ensures r == Removed <==> hasEmbed && r != LogFailed && old(NewReport(g, m, reporter, reportOk))
                                && old(confessions)[(g, m)].reports + 1 >= BanThreshold
      ensures hasEmbed && r != LogFailed ==>
                confessions == if old(NewReport(g, m, reporter, reportOk))
                               then old(confessions)[(g, m) := Reported(old(confessions)[(g, m)], reporter).value]
                               else old(confessions)
      ensures hasEmbed && r != LogFailed ==>
                var read := old(Read(g, now, settingsOk));
                var c1 := old(CacheAfterRead(g, now, settingsOk));
                if old(BansAuthor(g, m, reporter, read, reportOk, fetchOk)) then
                  var next := read.(banned := Some(Applied(Banned(read), old(confessions)[(g, m)].authorId, Ban)));
                  var c2 := if (old(Hit(g, now)) || settingsOk) && read.banned.Some? then c1[g := (next, c1[g].1)] else c1;
                  && db == (if updateOk then old(db)[g := Merge(old(Stored(g)), next)] else old(db))
                  && cache == (if updateOk then c2[g := (next, now)] else c2)
                else db == old(db) && cache == c1
      ensures r == Removed && fetchOk && updateOk ==>
                g in cache && old(confessions)[(g, m)].authorId in Banned(cache[g].0)
    {
      if !hasEmbed {
        return NoContent;
      }
      var settings, cached := GetGuildSettings(g, now, settingsOk);
      if LogBlocks(settings, logFound, logSent) {
        return LogFailed;
      }
      var count, duplicate := AddConfessionReport(g, m, reporter, reportOk);
      if duplicate {
        return AlreadyReported;
      }
      if count < BanThreshold {
        return Submitted;
      }
      if fetchOk && (g, m) in confessions {
        var author := confessions[(g, m)].authorId;
        var banned := Banned(settings);
        if author !in banned {
          var more := Applied(banned, author, Ban);
          assert NoDup(banned) by {
            if !cached {
              assert settings == NoSettings;
            }
          }
          if cached && settings.banned.Some? {
            MutateCached(g, more);
          }
          UpdateGuildSettings(g, settings.(banned := Some(more)), now, updateOk);
        } else if updateOk {
          assert g in cache;
        }
      }
      r := Removed;
    }

    /**
     * `confess_ban`: the settings are read, then the action is checked;
     * 'ban' appends the id when absent, 'unban' removes it when present, and
     * the settings read are saved with that list. The list is set inside
     * the cached settings first, so a failed write still shows in the cache
     * while it stays fresh.
     */
    method ConfessBan(g: int, u: int, action: string, now: int, settingsOk: bool, updateOk: bool)
      returns (r: BanReply)
      requires Valid()
      modifies this
      ensures Valid() && confessions == old(confessions)
      ensures r == InvalidAction <==> ParseAction(action).None?
      ensures r == BanDone <==> ParseAction(action) == Some(Ban)
      ensures var read := old(Read(g, now, settingsOk));
              var c1 := old(CacheAfterRead(g, now, settingsOk));
              if ParseAction(action).None? then db == old(db) && cache == c1
              else
                var next := read.(banned := Some(Applied(Banned(read), u, ParseAction(action).value)));
                var c2 := if old(Hit(g, now)) || settingsOk then c1[g := (next, c1[g].1)] else c1;
                && db == (if updateOk then old(db)[g := Merge(old(Stored(g)), next)] else old(db))
                && cache == (if updateOk then c2[g := (next, now)] else c2)
      ensures r != InvalidAction && updateOk ==>
                && g in db && g in cache
                && (r == BanDone <==> u in Banned(db[g]))
                && (forall y :: y in Banned(db[g]) <==> y in Banned(cache[g].0))
      ensures r == BanDone && g in old(cache) && Fresh(old(cache)[g].1, now) ==>
                g in cache && u in Banned(cache[g].0)
    {
      var settings, cached := GetGuildSettings(g, now, settingsOk);
      var a := ParseAction(action);
      if a.None? {
        return InvalidAction;
      }
      assert NoDup(Banned(settings)) by {
        if !cached {
          assert settings == NoSettings;
        }
      }
      var list := Applied(Banned(settings), u, a.value);
      if cached {
        MutateCached(g, list);
      }
      UpdateGuildSettings(g, settings.(banned := Some(list)), now, updateOk);
      r := if a.value == Ban then BanDone else UnbanDone;
    }

    /**
     * `setup_confess`: the copy of the settings read with the given
     * changes, saved unless the colour is refused.
     */
    method SetupConfess(g: int, channel: Option<int>, log: Option<int>, colour: Option<string>, now: int,
                        settingsOk: bool, updateOk: bool) returns (r: SetupReply)
      requires Valid()
      modifies this
      ensures Valid() && confessions == old(confessions)
      ensures r == InvalidColour <==> colour.Some? && colour.value != "" && !ValidColour(WithHash(colour.value))
      ensures var next := Configured(old(Read(g, now, settingsOk)), channel, log, colour);
              var c1 := old(CacheAfterRead(g, now, settingsOk));
              if next.Some? && updateOk then db == old(db)[g := Merge(old(Stored(g)), next.value)] && cache == c1[g := (next.value, now)]
              else db == old(db) && cache == c1
      ensures r == Updated && updateOk ==>
                && g in db && g in cache && cache[g].1 == now
                && (colour.Some? && colour.value != "" ==> db[g].embedColour == Some(WithHash(colour.value)))
                && (channel.Some? ==> db[g].submissionChannel == channel)
                && (log.Some? ==> db[g].logChannel == log)
    {
      var settings, cached := GetGuildSettings(g, now, settingsOk);
      var next := Configured(settings, channel, log, colour);
      if next.None? {
        return InvalidColour;
      }
      assert NoDup(Banned(next.value)) by {
        if !cached {
          assert settings == NoSettings;
        }
      }
      UpdateGuildSettings(g, next.value, now, updateOk);
      r := Updated;
    }
  }
}
