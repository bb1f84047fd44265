/**
 * `cogs/ban.py`: a per-server custom ban command. A server stores a command
 * name; an administrator's message starting with `.` and that name bans the
 * first mentioned member, or the user whose id is the first word, and the
 * bot announces it with a line picked from `responses.txt`.
 *
 * The `ban_config` table and the file's lines are passed in; the direct
 * message to the banned user, the random choices and the Discord calls are
 * parameters or outcomes.
 */
module Ban {
  import opened Common

  const DefaultResponse := "@user" + BannedFor + "[reason]"
  const BannedFor := " has been banned for "
  const Placeholder := "Random response will be used"
  const NoReason := "No reason provided"

  // ---------------------------------------------------------------------------
  // responses.txt
  // ---------------------------------------------------------------------------

  /** `[line.strip() for line in f if line.strip()]`. */
  function KeptLines(lines: seq<string>): (r: seq<string>)
    ensures |r| <= |lines|
    ensures forall k :: 0 <= k < |r| ==> r[k] != [] && !IsSpace(r[k][0]) && !IsSpace(r[k][|r[k]| - 1])
  {
    if lines == [] then []
    else (if Strip(lines[0]) == [] then [] else [Strip(lines[0])]) + KeptLines(lines[1..])
  }

  /** Exactly the lines that are not blank are kept, stripped. */
  lemma {:induction false} KeptLinesExactly(lines: seq<string>)
    ensures forall i :: 0 <= i < |lines| && Strip(lines[i]) != [] ==> Strip(lines[i]) in KeptLines(lines)
    ensures forall x :: x in KeptLines(lines) ==> exists i :: 0 <= i < |lines| && x == Strip(lines[i])
  {
    if lines != [] {
      var rest := lines[1..];
      KeptLinesExactly(rest);
      var head := if Strip(lines[0]) == [] then [] else [Strip(lines[0])];
      assert KeptLines(lines) == head + KeptLines(rest);
      forall i | 0 <= i < |lines| && Strip(lines[i]) != []
        ensures Strip(lines[i]) in KeptLines(lines)
      {
        if i > 0 { assert lines[i] == rest[i - 1]; }
      }
      forall x | x in KeptLines(lines)
        ensures exists i :: 0 <= i < |lines| && x == Strip(lines[i])
      {
        if x !in head {
          var i :| 0 <= i < |rest| && x == Strip(rest[i]);
          assert rest[i] == lines[i + 1];
        }
      }
    }
  }

  /** `load_responses`: the file's kept lines, or the one default line when it cannot be read. */
  function LoadedResponses(file: Option<seq<string>>): (r: seq<string>)
    ensures file.None? ==> r == [DefaultResponse]
    ensures file.Some? ==> r == KeptLines(file.value)
  {
    if file.None? then [DefaultResponse] else KeptLines(file.value)
  }

  /** A file of blank lines leaves no responses, and the stored response is used instead. */
  lemma {:induction false} BlankFileKeepsNothing(lines: seq<string>)
    requires forall i :: 0 <= i < |lines| ==> Strip(lines[i]) == []
    ensures KeptLines(lines) == []
  {
    if lines != [] {
      BlankFileKeepsNothing(lines[1..]);
    }
  }

  // ---------------------------------------------------------------------------
  // Targets and reasons
  // ---------------------------------------------------------------------------

  /** A user the command may ban; `rank` is the top role's position when the user is a member. */
  datatype Target = Target(id: nat, rank: Option<int>)

  /** `user.mention`. */
  function Mention(id: nat): (r: string)
    ensures |r| > 0 && r[0] == '<' && NoChar(r, '[')
  {
    var r := "<@" + NatToString(id) + ">";
    assert NoChar(r, '[') by {
      forall i | 0 <= i < |r|
        ensures r[i] != '['
      {
        if 2 <= i < |r| - 1 { assert r[i] == NatToString(id)[i - 2]; }
      }
    }
    r
  }

  /**
   * The reason after a mention as written: the text after the mention's
   * first occurrence. When the mention's text does not occur, `find` gives -1
   * and the slice starts at `len(mention) - 1`.
   */
  function ReasonAsWritten(rest: string, mention: string): string
    requires |mention| > 0
  {
    var f := Find(rest, mention);
    var start := if f < 0 then |mention| - 1 else f + |mention|;
    Strip(if start <= |rest| then rest[start..] else "")
  }

  /** The reason after a mention: the text after it, or all the text when it does not occur. */
  function Reason(rest: string, mention: string): string
    requires |mention| > 0
  {
    var f := Find(rest, mention);
    if f < 0 then Strip(rest) else Strip(rest[f + |mention|..])
  }

  /** With the mention written first, both read the reason as the text after it. */
  lemma MentionFirstReason(id: nat, x: string)
    ensures Reason(Mention(id) + x, Mention(id)) == Strip(x)
    ensures ReasonAsWritten(Mention(id) + x, Mention(id)) == Strip(x)
  {
    var m := Mention(id);
    assert (m + x)[..|m|] == m;
    assert OccursAt(m + x, m, 0);
    assert Find(m + x, m) == 0;
    assert (m + x)[|m|..] == x;
  }

  /**
   * A reply that pings its author lists the author as the first mention,
   * though the text names someone else: as written, the reason loses its
   * first characters; the corrected reading keeps the whole text.
   */
  lemma MissingMentionLosesText()
    ensures ReasonAsWritten("456 spam", Mention(7)) == "spam"
    ensures Reason("456 spam", Mention(7)) == "456 spam"
  {
    MissingMentionFacts();
    assert "456 spam"[3..] == " spam";
  }

  lemma MissingMentionFacts()
    ensures Mention(7) == "<@7>" && |Mention(7)| == 4
    ensures Find("456 spam", Mention(7)) == -1
    ensures Strip(" spam") == "spam" && Strip("456 spam") == "456 spam"
  {
    MentionSeven();
    NoCharNoOccurrence("456 spam", "<@7>");
    StripSpam();
  }

  lemma MentionSeven()
    ensures Mention(7) == "<@7>"
  {
  }

  lemma StripSpam()
    ensures Strip(" spam") == "spam" && Strip("456 spam") == "456 spam"
  {
    StripEdges(" spam", 1, "spam");
    StripEdges("456 spam", 0, "456 spam");
  }

  lemma StripEdges(s: string, i: nat, r: string)
    requires i + |r| <= |s| && r == s[i..i + |r|] && |r| > 0
    requires forall j :: 0 <= j < i ==> IsSpace(s[j])
    requires forall j :: i + |r| <= j < |s| ==> IsSpace(s[j])
    requires !IsSpace(r[0]) && !IsSpace(r[|r| - 1])
    ensures Strip(s) == r
  {
    assert LeadingSpace(s) == i by {
      assert !IsSpace(s[i]);
    }
    var t := s[i..];
    assert t[|r| - 1] == r[|r| - 1];
    assert forall j :: |r| <= j < |t| ==> IsSpace(t[j]) by {
      forall j | |r| <= j < |t|
        ensures IsSpace(t[j])
      {
        assert t[j] == s[i + j];
      }
    }
    TrailingSpaceIs(t, |t| - |r|);
    assert t[..|r|] == r;
  }

  lemma TrailingSpaceIs(t: string, b: nat)
    requires b < |t| && !IsSpace(t[|t| - b - 1])
    requires forall j :: |t| - b <= j < |t| ==> IsSpace(t[j])
    ensures TrailingSpace(t) == b
  {
  }

  /** The four characters the id argument is cleaned of. */
  predicate IdChar(c: char) { c == '<' || c == '>' || c == '@' || c == '!' }

  /** `potential_id.replace(c, '')` for each of `<`, `>`, `@`, `!`: those characters dropped. */
  function DropIdChars(s: string): (r: string)
    ensures |r| <= |s|
    ensures forall i :: 0 <= i < |r| ==> !IdChar(r[i])
  {
    if s == [] then [] else (if IdChar(s[0]) then [] else [s[0]]) + DropIdChars(s[1..])
  }

  lemma {:induction false} DropIdCharsConcat(a: string, b: string)
    ensures DropIdChars(a + b) == DropIdChars(a) + DropIdChars(b)
    decreases |a|
  {
    if a == [] {
      assert a + b == b;
    } else {
      assert (a + b)[0] == a[0];
      assert (a + b)[1..] == a[1..] + b;
      DropIdCharsConcat(a[1..], b);
    }
  }

  lemma {:induction false} DropIdCharsKeepsDigits(d: string)
    requires AllDigits(d)
    ensures DropIdChars(d) == d
    decreases |d|
  {
    if d != [] {
      assert !IdChar(d[0]);
      DropIdCharsKeepsDigits(d[1..]);
    }
  }

  lemma DropAround(p: string, d: string, q: string)
    requires DropIdChars(p) == [] && DropIdChars(q) == [] && AllDigits(d)
    ensures DropIdChars(p + d + q) == d
  {
    DropIdCharsConcat(p + d, q);
    DropIdCharsConcat(p, d);
    DropIdCharsKeepsDigits(d);
  }

  /** A bare id, a mention and a nickname mention all name the same user. */
  lemma IdForms(n: nat)
    ensures ParseInt(DropIdChars(NatToString(n))) == Some(n as int)
    ensures ParseInt(DropIdChars("<@" + NatToString(n) + ">")) == Some(n as int)
    ensures ParseInt(DropIdChars("<@!" + NatToString(n) + ">")) == Some(n as int)
  {
    var d := NatToString(n);
    DropIdCharsKeepsDigits(d);
    ParseIntOfNat(n);
    assert DropIdChars(">") == [] by { assert ">"[1..] == []; }
    assert DropIdChars("<@") == [] by { assert "<@"[1..] == "@"; assert "@"[1..] == []; }
    assert DropIdChars("<@!") == [] by { assert "<@!"[1..] == "@!"; assert "@!"[1..] == "!"; assert "!"[1..] == []; }
    DropAround("<@", d, ">");
    DropAround("<@!", d, ">");
  }

  /** `fetch_user`'s answer: a user, who carries no roles, or the error raised. */
  datatype Fetch = Fetched(userId: nat) | NotFound | FetchError

  /** Who the command bans and why, or the reply refusing it. */
  datatype Pick = Picked(target: Target, reason: string) | Refused(reply: BanReply)

  datatype BanResult = BanOk | BanForbidden | BanError

  datatype BanReply =
    | Ignored
    | NoPermission
    | NeedTarget
    | InvalidId
    | UserNotFound
    | FetchFailed
    | NoBanPermission
    | RoleTooHigh
    | CannotBan
    | BanFailed
    | Banned(target: Target, reason: string, announcement: string)

  /**
   * The first mention with the text after it; otherwise the first word,
   * cleaned of mention characters, as an id to fetch, with the other words
   * as the reason.
   */
  function ChooseTarget(rest: string, mentions: seq<Target>, fetch: int -> Fetch): (r: Pick)
    ensures |mentions| > 0 ==> r == Picked(mentions[0], Reason(rest, Mention(mentions[0].id)))
    ensures r.Refused? ==> |mentions| == 0 && !r.reply.Banned? && r.reply != Ignored
    ensures |mentions| == 0 && r.Picked? ==> r.target.rank.None? && exists id :: fetch(id) == Fetched(r.target.id)
  {
    if |mentions| > 0 then Picked(mentions[0], Reason(rest, Mention(mentions[0].id)))
    else
      var parts := SplitWords(rest);
      if parts == [] then Refused(NeedTarget)
      else
        var id := ParseInt(DropIdChars(parts[0]));
        if id.None? then Refused(InvalidId)
        else match fetch(id.value)
          case Fetched(u) => Picked(Target(u, None), Strip(Join(" ", parts[1..])))
          case NotFound => Refused(UserNotFound)
          case FetchError => Refused(FetchFailed)
  }

  /** `"@user"` and then `"[reason]"` replaced in the chosen line. */
  function Announce(template: string, mention: string, reason: string): string
  {
    Replace(Replace(template, "@user", mention), "[reason]", reason)
  }

  /** The line announced: one of the file's lines, or the stored response when there are none. */
  function Template(responses: seq<string>, response: string, pick: nat): (r: string)
    ensures |responses| > 0 ==> r in responses
    ensures |responses| == 0 ==> r == response
  {
    if |responses| > 0 then responses[pick % |responses|] else response
  }

  /** A line with one `@user` and then one `[reason]` gets the mention and the reason in their places. */
  lemma AnnouncementFilled(a: string, b: string, c: string, id: nat, reason: string)
    requires NoChar(a, '@') && NoChar(b, '@') && NoChar(c, '@')
    requires NoChar(a, '[') && NoChar(b, '[') && NoChar(c, '[')
    ensures Announce(a + "@user" + b + "[reason]" + c, Mention(id), reason) == a + Mention(id) + b + reason + c
  {
    var m := Mention(id);
    var tail := b + "[reason]" + c;
    assert NoChar("[reason]", '@');
    NoCharConcat(b, "[reason]", '@');
    NoCharConcat(b + "[reason]", c, '@');
    assert a + "@user" + b + "[reason]" + c == a + "@user" + tail;
    FillBetween(a, "@user", m, tail);
    NoCharConcat(a, m, '[');
    NoCharConcat(a + m, b, '[');
    assert a + m + tail == (a + m + b) + "[reason]" + c;
    FillBetween(a + m + b, "[reason]", reason, c);
  }

  /** The default line. */
  lemma DefaultAnnouncement(id: nat, reason: string)
    ensures Announce(DefaultResponse, Mention(id), reason) == Mention(id) + " has been banned for " + reason
  {
    var b := BannedFor;
    assert DefaultResponse == "" + "@user" + b + "[reason]" + "";
    assert NoChar(b, '@') && NoChar(b, '[');
    AnnouncementFilled("", b, "", id, reason);
  }

  /** The command fires on any message that merely starts with `.` and its name. */
  predicate Fires(content: string, command: string)
  {
    StartsWith(content, "." + command)
  }

  /** A longer word that begins with the command's name triggers it too. */
  lemma PrefixFires(x: string)
    ensures Fires(".ban" + x, "ban")
    ensures Fires(".banana", "ban")
  {
    assert (".ban" + x)[..4] == ".ban";
    assert ".banana"[..4] == ".ban";
  }

  /**
   * The decision once a server's command and stored response are known:
   * fired or not, administrator or not, the target, the reason (or its
   * default), the bot's permission and role, the ban itself.
   */
  function Decide(admin: bool, content: string, command: string, response: string, mentions: seq<Target>,
                  fetch: int -> Fetch, botCanBan: bool, botRank: int, ban: BanResult,
                  responses: seq<string>, pick: nat): (r: BanReply)
    ensures r == Ignored <==> !Fires(content, command)
    ensures Fires(content, command) && !admin ==> r == NoPermission
    ensures r.Banned? ==> admin && botCanBan && ban == BanOk
    ensures r.Banned? ==> r.reason != []
    ensures r.Banned? ==> r.target.rank.None? || r.target.rank.value < botRank
    ensures r.Banned? ==> r.announcement == Announce(Template(responses, response, pick), Mention(r.target.id), r.reason)
    ensures Fires(content, command) && admin ==>
              var c := ChooseTarget(Strip(content[|"." + command|..]), mentions, fetch);
              && (c.Refused? ==> r == c.reply)
              && (c.Picked? ==> (r.Banned? <==> botCanBan && (c.target.rank.None? || c.target.rank.value < botRank) && ban == BanOk))
              && (r.Banned? ==> c == Picked(r.target, c.reason) && r.reason == (if c.reason == [] then NoReason else c.reason))
  {
    var dot := "." + command;
    if !StartsWith(content, dot) then Ignored
    else if !admin then NoPermission
    else
      var rest := Strip(content[|dot|..]);
      match ChooseTarget(rest, mentions, fetch)
      case Refused(reply) => reply
      case Picked(t, given) =>
        var reason := if given == [] then NoReason else given;
        if !botCanBan then NoBanPermission
        else if t.rank.Some? && t.rank.value >= botRank then RoleTooHigh
        else match ban
          case BanForbidden => CannotBan
          case BanError => BanFailed
          case BanOk => Banned(t, reason, Announce(Template(responses, response, pick), Mention(t.id), reason))
  }

  /** An administrator's `.<command> @user`, with nothing after the mention, bans with the default reason. */
  lemma MentionWithoutReason(command: string, response: string, t: Target, fetch: int -> Fetch,
                             botRank: int, responses: seq<string>, pick: nat)
    requires t.rank.None? || t.rank.value < botRank
    ensures Decide(true, "." + command + " " + Mention(t.id), command, response, [t], fetch, true, botRank, BanOk, responses, pick)
            == Banned(t, NoReason, Announce(Template(responses, response, pick), Mention(t.id), NoReason))
  {
    var m := Mention(t.id);
    var content := "." + command + " " + m;
    var dot := "." + command;
    assert content[..|dot|] == dot;
    var after := content[|dot|..];
    assert after == " " + m;
    assert after[1..1 + |m|] == m;
    StripEdges(after, 1, m);
    MentionFirstReason(t.id, "");
    assert m + "" == m;
    assert Strip("") == [];
    assert Reason(m, m) == [];
    assert ChooseTarget(m, [t], fetch) == Picked(t, []);
  }

  // ---------------------------------------------------------------------------
  // The cog
  // ---------------------------------------------------------------------------

  /** A server's row: its command name and its stored response. */
  datatype BanConfig = BanConfig(command: string, response: string)

  /** What `/setban` answered. */
  datatype SetBanReply = NotInGuild | Updated | UpdateFailed

  /** The row a message is handled with: the cached one, else the table's when it can be read. */
  function ConfigFor(cache: map<nat, BanConfig>, table: map<nat, BanConfig>, g: nat, dbUp: bool): (r: Option<BanConfig>)
    ensures g in cache ==> r == Some(cache[g])
    ensures g !in cache && (!dbUp || g !in table) ==> r.None?
  {
    if g in cache then Some(cache[g]) else if dbUp && g in table then Some(table[g]) else None
  }

  class BanCog {
    /** The `ban_config` table, keyed by guild. */
    var table: map<nat, BanConfig>
    /** `config_cache`, keyed by `str(guild_id)`, here by the guild id itself. */
    var cache: map<nat, BanConfig>
    var responses: seq<string>

    /** Starting up: the table as stored, an empty cache, the responses file read once. */
    constructor(rows: map<nat, BanConfig>, file: Option<seq<string>>)
      ensures table == rows && cache == map[] && responses == LoadedResponses(file)
    {
      table := rows;
      cache := map[];
      responses := LoadedResponses(file);
    }

    /** `load_responses`. */
    method LoadResponses(file: Option<seq<string>>)
      modifies this
      ensures responses == LoadedResponses(file) && table == old(table) && cache == old(cache)
    {
      responses := LoadedResponses(file);
    }

    /**
     * One pass of `watch_responses_file`: a file newer than the last one read
     * replaces the responses; an unreadable file changes nothing (unlike the
     * start-up read, there is no default line).
     */
    method WatchStep(file: Option<(int, seq<string>)>, lastModified: int) returns (last: int)
      modifies this
      ensures file.Some? && file.value.0 > lastModified ==> responses == KeptLines(file.value.1) && last == file.value.0
      ensures !(file.Some? && file.value.0 > lastModified) ==> responses == old(responses) && last == lastModified
      ensures table == old(table) && cache == old(cache)
    {
      last := lastModified;
      if file.Some? && file.value.0 > lastModified {
        responses := KeptLines(file.value.1);
        last := file.value.0;
      }
    }

    /** `load_config_cache`: every row, when the table can be read. */
    method LoadConfigCache(dbUp: bool)
      modifies this
      ensures cache == (if dbUp then old(table) else old(cache))
      ensures table == old(table) && responses == old(responses)
    {
      if dbUp {
        cache := table;
      }
    }

    /** `/setban`: the row is inserted or replaced, then cached. */
    method SetBan(g: Option<nat>, command: string, dbUp: bool) returns (r: SetBanReply)
      modifies this
      ensures g.None? ==> r == NotInGuild
      ensures g.Some? && dbUp ==> r == Updated
                                  && table == old(table)[g.value := BanConfig(command, Placeholder)]
                                  && cache == old(cache)[g.value := BanConfig(command, Placeholder)]
      ensures !(g.Some? && dbUp) ==> table == old(table) && cache == old(cache)
      ensures g.Some? && !dbUp ==> r == UpdateFailed
      ensures responses == old(responses)
    {
      if g.None? {
        return NotInGuild;
      }
      if !dbUp {
        return UpdateFailed;
      }
      table := table[g.value := BanConfig(command, Placeholder)];
      cache := cache[g.value := BanConfig(command, Placeholder)];
      r := Updated;
    }

    /**
     * `on_message`: only guild messages from humans that start with `.`;
     * a server missing from the cache is looked up in the table, and cached
     * when found.
     */
    method OnMessage(g: Option<nat>, authorBot: bool, admin: bool, content: string, mentions: seq<Target>,
                     fetch: int -> Fetch, botCanBan: bool, botRank: int, ban: BanResult, dbUp: bool, pick: nat)
      returns (r: BanReply)
      modifies this
      ensures g.None? || authorBot || !StartsWith(content, ".") ==> r == Ignored && cache == old(cache)
      ensures g.Some? && !authorBot && StartsWith(content, ".") ==>
                var config := ConfigFor(old(cache), old(table), g.value, dbUp);
                && cache == (if g.value !in old(cache) && config.Some? then old(cache)[g.value := config.value] else old(cache))
                && r == (if config.None? then Ignored
                         else Decide(admin, content, config.value.command, config.value.response, mentions, fetch,
                                     botCanBan, botRank, ban, responses, pick))
      ensures table == old(table) && responses == old(responses)
    {
      if g.None? || authorBot || !StartsWith(content, ".") {
        return Ignored;
      }
      var config := if g.value in cache then Some(cache[g.value]) else None;
      if config.None? && dbUp && g.value in table {
        config := Some(table[g.value]);
        cache := cache[g.value := table[g.value]];
      }
      if config.None? {
        return Ignored;
      }
      r := Decide(admin, content, config.value.command, config.value.response, mentions, fetch,
                  botCanBan, botRank, ban, responses, pick);
    }
  }

  /** After `/setban`, the stored command fires for an administrator and is refused to everyone else. */
  lemma SetCommandFires(command: string, x: string, mentions: seq<Target>, fetch: int -> Fetch, botCanBan: bool,
                        botRank: int, ban: BanResult, responses: seq<string>, pick: nat)
    ensures Decide(true, "." + command + x, command, Placeholder, mentions, fetch, botCanBan, botRank, ban, responses, pick) != Ignored
    ensures Decide(false, "." + command + x, command, Placeholder, mentions, fetch, botCanBan, botRank, ban, responses, pick) == NoPermission
  {
    assert ("." + command + x)[..|"." + command|] == "." + command;
  }
}
