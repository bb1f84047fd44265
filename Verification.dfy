/**
 * `cogs/Verification.py`: selfie-verification tickets. A member presses a
 * button, the bot opens a `verification-<name>` channel whose topic records
 * the owner as `TICKET_OWNER:<id>`, and staff approve (the verified role is
 * granted) or decline (the member gets a message built from a template).
 *
 * The per-server configuration is the JSON document kept in memory, keyed
 * by the guild id as text; reading and writing the file is left out. The
 * guild (its channels' topics, its members and roles) is passed in.
 */
module Verification {
  import opened Common

  const Marker := "TICKET_OWNER:"
  const TicketPrefix := "verification-"
  /** What `dict.get` falls back to when no template was stored. */
  const FallbackWelcome := "Welcome {user}!"
  const FallbackDecline := "Your verification has been declined."
  /** The templates `/setup-verify` stores when none is given. */
  const SetupWelcome := "Welcome {user}! Please upload your verification selfie following the instructions below."
  const SetupDecline := "Your verification in {server} has been declined.\n\n**Reason:** {reason}\n\nPlease open a new ticket with a proper verification image that meets all requirements."

  /** A JSON value of the configuration: the ids are numbers, the templates strings. */
  datatype Value = Int(i: int) | Text(s: string)

  type ServerConfig = map<string, Value>

  // ---------------------------------------------------------------------------
  // Configuration
  // ---------------------------------------------------------------------------

  /** `str(guild_id)`, the key of a server's configuration. */
  function GuildKey(g: nat): string
  {
    NatToString(g)
  }

  lemma GuildKeyInjective(a: nat, b: nat)
    ensures GuildKey(a) == GuildKey(b) <==> a == b
  {
    NatToStringRoundTrip(a);
    NatToStringRoundTrip(b);
  }

  /** `get_server_config`: a server that was never set up reads as `{}`. */
  function Lookup(config: map<string, ServerConfig>, g: nat): (c: ServerConfig)
    ensures GuildKey(g) !in config ==> c == map[]
  {
    if GuildKey(g) in config then config[GuildKey(g)] else map[]
  }

  /** Writing one server's configuration leaves every other server's as it was. */
  lemma OtherGuildUnaffected(config: map<string, ServerConfig>, g: nat, h: nat, c: ServerConfig)
    requires g != h
    ensures Lookup(config[GuildKey(g) := c], h) == Lookup(config, h)
  {
    GuildKeyInjective(g, h);
  }

  /** The seven keys `/setup-verify` writes. */
  function SetupEntries(embedChannel: nat, category: nat, verifiedRole: nat, staffRole: nat, logChannel: nat,
                        welcome: string, decline: string): ServerConfig
  {
    map["embed_channel_id" := Int(embedChannel), "ticket_category_id" := Int(category),
        "verified_role_id" := Int(verifiedRole), "staff_role_id" := Int(staffRole),
        "log_channel_id" := Int(logChannel), "ticket_message" := Text(welcome),
        "decline_message" := Text(decline)]
  }

  /** Writing the seven keys one at a time amounts to merging them in. */
  lemma SetupAsUpdates(before: ServerConfig, embedChannel: nat, category: nat, verifiedRole: nat, staffRole: nat,
                       logChannel: nat, welcome: string, decline: string)
    ensures before["embed_channel_id" := Int(embedChannel)]["ticket_category_id" := Int(category)]
                  ["verified_role_id" := Int(verifiedRole)]["staff_role_id" := Int(staffRole)]
                  ["log_channel_id" := Int(logChannel)]["ticket_message" := Text(welcome)]
                  ["decline_message" := Text(decline)]
            == before + SetupEntries(embedChannel, category, verifiedRole, staffRole, logChannel, welcome, decline)
  {
  }

  lemma UpdateTwice<K, V>(m: map<K, V>, k: K, x: V, y: V)
    ensures m[k := x][k := y] == m[k := y]
  {
  }

  /**
   * `guild.get_role(id) if id else None` (and `guild.get_channel` alike):
   * the stored id, when it is a non-zero number naming something that exists.
   * A string is never a role's id, so it finds nothing either.
   */
  function Resolve(c: ServerConfig, key: string, existing: set<int>): (r: Option<int>)
    ensures r.Some? <==> key in c && c[key].Int? && c[key].i != 0 && c[key].i in existing
    ensures r.Some? ==> r.value == c[key].i
  {
    if key in c && c[key].Int? && c[key].i != 0 && c[key].i in existing then Some(c[key].i) else None
  }

  // ---------------------------------------------------------------------------
  // Ticket topics
  // ---------------------------------------------------------------------------

  /** The topic a new ticket channel gets. */
  function TopicFor(user: nat): string
  {
    Marker + NatToString(user)
  }

  /** `topic.split("TICKET_OWNER:")[1]`: the text after the first marker, up to the next one. */
  function OwnerField(t: string): (r: string)
    requires Contains(t, Marker)
    ensures !Contains(r, Marker)
  {
    var after := t[Find(t, Marker) + |Marker|..];
    if Contains(after, Marker) then
      var k := Find(after, Marker);
      var r := after[..k];
      assert !Contains(r, Marker) by {
        forall j | 0 <= j <= |r|
          ensures !OccursAt(r, Marker, j)
        {
          if OccursAt(r, Marker, j) {
            assert after[j..j + |Marker|] == r[j..j + |Marker|];
            assert OccursAt(after, Marker, j);
          }
        }
      }
      r
    else after
  }

  /**
   * `get_ticket_owner_id`: the first word of the owner field as an integer;
   * no topic, no marker, no word or a word that is not a number gives None.
   */
  function OwnerId(topic: Option<string>): (r: Option<int>)
    ensures topic.None? || !Contains(topic.value, Marker) ==> r.None?
  {
    if topic.None? || topic.value == [] || !Contains(topic.value, Marker) then None
    else
      var words := SplitWords(OwnerField(topic.value));
      if words == [] then None else ParseInt(words[0])
  }

  lemma SingleWord(s: string)
    requires |s| > 0 && NoSpace(s)
    ensures SplitWords(s) == [s]
  {
    assert !IsSpace(s[0]);
    var lead := LeadingSpace(s);
    assert lead == 0;
    assert s[lead..] == s;
    var n := TokenLength(s);
    assert s[..n] == s;
    assert s[n..] == [];
  }

  lemma DigitsLackMarker(d: string)
    requires AllDigits(d)
    ensures !Contains(d, Marker)
  {
    forall i | 0 <= i <= |d|
      ensures !OccursAt(d, Marker, i)
    {
      if i + |Marker| <= |d| {
        assert d[i..i + |Marker|][0] == d[i];
      }
    }
  }

  /** The owner of a ticket the bot opened reads back from its topic. */
  lemma OwnerIdOfTopic(user: nat)
    ensures OwnerId(Some(TopicFor(user))) == Some(user as int)
  {
    var t := TopicFor(user);
    var d := NatToString(user);
    assert t[..|Marker|] == Marker;
    assert OccursAt(t, Marker, 0);
    assert Find(t, Marker) == 0;
    assert t[|Marker|..] == d;
    DigitsLackMarker(d);
    DigitsNoSpace(d);
    SingleWord(d);
    ParseIntOfNat(user);
  }

  // ---------------------------------------------------------------------------
  // One ticket per member
  // ---------------------------------------------------------------------------

  /** The open-ticket test as written: the topic merely contains `TICKET_OWNER:<id>`. */
  predicate OpenTicketAsWritten(topic: Option<string>, user: nat)
  {
    topic.Some? && topic.value != [] && Contains(topic.value, TopicFor(user))
  }

  /** A member whose id extends another's with a digit is taken for that member. */
  lemma PrefixIdCollides(a: nat)
    requires a >= 1
    ensures OpenTicketAsWritten(Some(TopicFor(10 * a + 3)), a)
    ensures OwnerId(Some(TopicFor(10 * a + 3))) == Some(10 * a + 3)
  {
    var b := 10 * a + 3;
    assert NatToString(b) == NatToString(a) + [DigitChar(3)];
    var t := TopicFor(b);
    assert t == TopicFor(a) + [DigitChar(3)];
    assert t[..|TopicFor(a)|] == TopicFor(a);
    assert OccursAt(t, TopicFor(a), 0);
    OwnerIdOfTopic(b);
  }

  /** The test the ticket buttons use: the topic's owner is this member. */
  predicate OwnsTicket(topic: Option<string>, user: nat)
  {
    OwnerId(topic) == Some(user as int)
  }

  /** The corrected test blocks a member on their own ticket and on nobody else's. */
  lemma OwnsTicketExactly(owner: nat, user: nat)
    ensures OwnsTicket(Some(TopicFor(owner)), user) <==> owner == user
  {
    OwnerIdOfTopic(owner);
  }

  function OwnedBy(user: nat): Option<string> -> bool
  {
    t => OwnsTicket(t, user)
  }

  /** The scan over `guild.text_channels` for a ticket the member already owns. */
  method FindOpenTicket(topics: seq<Option<string>>, user: nat) returns (found: Option<nat>)
    ensures found == FirstWhere(topics, OwnedBy(user))
  {
    found := FindFirst(topics, OwnedBy(user));
  }

  lemma FirstWhereUnique<T>(s: seq<T>, p: T -> bool, i: nat)
    requires i < |s| && p(s[i]) && forall j :: 0 <= j < i ==> !p(s[j])
    ensures FirstWhere(s, p) == Some(i)
  {
  }

  // ---------------------------------------------------------------------------
  // Templates
  // ---------------------------------------------------------------------------

  /**
   * The first message of a ticket: the stored template (or the fallback) with
   * `{user}` replaced by the mention. A stored number has no `replace`, and
   * the attempt ends in the error reply (None).
   */
  function TicketWelcome(c: ServerConfig, mention: string): (r: Option<string>)
    ensures r.None? <==> "ticket_message" in c && c["ticket_message"].Int?
    ensures "ticket_message" !in c && NoBrace(mention) ==> r == Some("Welcome " + mention + "!")
  {
    if "ticket_message" !in c then
      FillBetween("Welcome ", "{user}", mention, "!");
      assert FallbackWelcome == "Welcome " + "{user}" + "!";
      Some(Replace(FallbackWelcome, "{user}", mention))
    else if c["ticket_message"].Text? then Some(Replace(c["ticket_message"].s, "{user}", mention))
    else None
  }

  /** `{server}` first, then `{reason}`, as the decline modal does. */
  function FillDecline(template: string, server: string, reason: string): string
  {
    Replace(Replace(template, "{server}", server), "{reason}", reason)
  }

  /** The message sent to a declined member; None where the stored template is a number. */
  function DeclineText(c: ServerConfig, server: string, reason: string): (r: Option<string>)
    ensures r.None? <==> "decline_message" in c && c["decline_message"].Int?
    ensures "decline_message" !in c ==> r == Some(FallbackDecline)
  {
    if "decline_message" !in c then
      NoCharNoOccurrence(FallbackDecline, "{server}");
      ReplaceAbsent(FallbackDecline, "{server}", server);
      NoCharNoOccurrence(FallbackDecline, "{reason}");
      ReplaceAbsent(FallbackDecline, "{reason}", reason);
      Some(FillDecline(FallbackDecline, server, reason))
    else if c["decline_message"].Text? then Some(FillDecline(c["decline_message"].s, server, reason))
    else None
  }

  lemma NoServerPlaceholder(b: string, c: string)
    requires NoBrace(b) && NoBrace(c)
    ensures !Contains(b + "{reason}" + c, "{server}")
  {
    var s := b + "{reason}" + c;
    forall i | 0 <= i <= |s|
      ensures !OccursAt(s, "{server}", i)
    {
      if i + 8 <= |s| {
        assert s[i..i + 8][0] == s[i];
        assert s[i..i + 8][1] == s[i + 1];
        if i < |b| { assert s[i] == b[i]; }
        else if i == |b| { assert s[i + 1] == 'r'; }
        else if i < |b| + 8 { assert s[i] == "{reason}"[i - |b|]; }
        else { assert s[i] == c[i - |b| - 8]; }
      }
    }
  }

  /**
   * A template with one `{server}` and then one `{reason}` in brace-free
   * text gets the server's name and the reason, whatever the reason says;
   * the name must be brace-free because the reason is filled in after it.
   */
  lemma DeclineFilled(a: string, b: string, c: string, server: string, reason: string)
    requires NoBrace(a) && NoBrace(b) && NoBrace(c) && NoBrace(server)
    ensures FillDecline(a + "{server}" + b + "{reason}" + c, server, reason) == a + server + b + reason + c
  {
    var rest := b + "{reason}" + c;
    assert a + "{server}" + b + "{reason}" + c == a + "{server}" + rest;
    forall j | 0 <= j < |a|
      ensures !OccursAt(a + "{server}" + rest, "{server}", j)
    {
      assert (a + "{server}" + rest)[j] == a[j];
      if j + 8 <= |a + "{server}" + rest| {
        assert (a + "{server}" + rest)[j..j + 8][0] == a[j];
      }
    }
    ReplaceFirst(a, "{server}", server, rest);
    NoServerPlaceholder(b, c);
    ReplaceAbsent(rest, "{server}", server);
    NoCharConcat(a, server, '{');
    NoCharConcat(a + server, b, '{');
    SeqAssoc(a + server, b + "{reason}", c);
    SeqAssoc(a + server, b, "{reason}");
    FillBetween(a + server + b, "{reason}", reason, c);
  }

  /** A server name containing `{reason}` has the reason put in its place. */
  lemma ServerNameTakesReason(reason: string)
    ensures FillDecline("{server}", "{reason}", reason) == reason
  {
    FillBetween("", "{server}", "{reason}", "");
    assert "" + "{server}" + "" == "{server}";
    FillBetween("", "{reason}", reason, "");
    assert "" + "{reason}" + "" == "{reason}";
  }

  // ---------------------------------------------------------------------------
  // Staff buttons
  // ---------------------------------------------------------------------------

  /**
   * `check_staff_permission`: administrators always; otherwise only when a
   * non-zero staff role is configured and the member holds it.
   */
  predicate IsStaff(admin: bool, c: ServerConfig, roles: seq<int>)
  {
    admin || ("staff_role_id" in c && c["staff_role_id"].Int? && c["staff_role_id"].i != 0 && c["staff_role_id"].i in roles)
  }

  /** After `/setup-verify`, exactly the holders of the chosen staff role (and administrators) are staff. */
  lemma SetupStaff(old_: ServerConfig, embedChannel: nat, category: nat, verifiedRole: nat, staffRole: nat,
                   logChannel: nat, welcome: string, decline: string, admin: bool, roles: seq<int>)
    ensures IsStaff(admin, old_ + SetupEntries(embedChannel, category, verifiedRole, staffRole, logChannel, welcome, decline), roles)
            <==> admin || (staffRole != 0 && staffRole in roles)
  {
    var c := old_ + SetupEntries(embedChannel, category, verifiedRole, staffRole, logChannel, welcome, decline);
    assert c["staff_role_id"] == Int(staffRole);
  }

  /** Why a staff button did nothing, or whose ticket it acts on. */
  datatype Gate = NotStaff | NotTicket | NoOwner | MemberGone | Proceed(member: int)

  /**
   * The checks both the approve and the decline button make, in order:
   * staff, a `verification-` channel, an owner in the topic (0 counts as
   * none), an owner still in the server.
   */
  function TicketGate(admin: bool, c: ServerConfig, roles: seq<int>, channelName: string, topic: Option<string>,
                      members: set<int>): (r: Gate)
    ensures r.Proceed? <==> IsStaff(admin, c, roles) && StartsWith(channelName, TicketPrefix)
                            && OwnerId(topic).Some? && OwnerId(topic).value != 0 && OwnerId(topic).value in members
    ensures r.Proceed? ==> OwnerId(topic) == Some(r.member)
    ensures r == NotStaff <==> !IsStaff(admin, c, roles)
  {
    if !IsStaff(admin, c, roles) then NotStaff
    else if !StartsWith(channelName, TicketPrefix) then NotTicket
    else if OwnerId(topic).None? || OwnerId(topic).value == 0 then NoOwner
    else if OwnerId(topic).value !in members then MemberGone
    else Proceed(OwnerId(topic).value)
  }

  datatype ApproveReply = ApproveRefused(gate: Gate) | NoVerifiedRole | Approved(member: int, role: int)

  /** `approve_button`: the gate, then the verified role must exist; the owner is given it. */
  function Approve(admin: bool, c: ServerConfig, roles: seq<int>, channelName: string, topic: Option<string>,
                   members: set<int>, guildRoles: set<int>): (r: ApproveReply)
    ensures r.Approved? <==> TicketGate(admin, c, roles, channelName, topic, members).Proceed?
                             && Resolve(c, "verified_role_id", guildRoles).Some?
    ensures r.Approved? ==> OwnerId(topic) == Some(r.member) && Some(r.role) == Resolve(c, "verified_role_id", guildRoles)
  {
    var gate := TicketGate(admin, c, roles, channelName, topic, members);
    if !gate.Proceed? then ApproveRefused(gate)
    else
      var role := Resolve(c, "verified_role_id", guildRoles);
      if role.None? then NoVerifiedRole else Approved(gate.member, role.value)
  }

  datatype DeclineReply = DeclineRefused(gate: Gate) | Declined(member: int, message: Option<string>)

  /**
   * `decline_button` followed by the reason modal: the same gate, then the
   * owner is sent the filled-in decline template.
   */
  function Decline(admin: bool, c: ServerConfig, roles: seq<int>, channelName: string, topic: Option<string>,
                   members: set<int>, server: string, reason: string): (r: DeclineReply)
    ensures r.Declined? <==> TicketGate(admin, c, roles, channelName, topic, members).Proceed?
    ensures r.Declined? ==> OwnerId(topic) == Some(r.member) && r.message == DeclineText(c, server, reason)
  {
    var gate := TicketGate(admin, c, roles, channelName, topic, members);
    if gate.Proceed? then Declined(gate.member, DeclineText(c, server, reason)) else DeclineRefused(gate)
  }

  // ---------------------------------------------------------------------------
  // The verify button
  // ---------------------------------------------------------------------------

  /** The ticket channel to create, and what the bot posts in it. */
  datatype VerifyReply =
    | NotConfigured
    | AlreadyOpen(index: nat)
    | AlreadyVerified
    | NoCategory
    | Created(name: string, topic: string, category: int, welcome: Option<string>, staffPing: Option<int>)

  /**
   * `verify_button`, given the topics of the server's text channels in order:
   * unconfigured, an open ticket, already verified, no category; otherwise a
   * `verification-<name>` channel owned by the member.
   */
  function Verify(c: ServerConfig, user: nat, userName: string, mention: string, userRoles: seq<int>,
                  topics: seq<Option<string>>, channels: set<int>, guildRoles: set<int>): (r: VerifyReply)
    ensures r.NotConfigured? <==> c == map[]
    ensures r.AlreadyOpen? ==> r.index < |topics| && OwnsTicket(topics[r.index], user)
    ensures r.Created? ==> forall i :: 0 <= i < |topics| ==> !OwnsTicket(topics[i], user)
    ensures r.Created? ==> r.name == TicketPrefix + userName && r.topic == TopicFor(user)
    ensures r.Created? ==> Resolve(c, "verified_role_id", guildRoles).None? || Resolve(c, "verified_role_id", guildRoles).value !in userRoles
    ensures r.Created? ==> Some(r.category) == Resolve(c, "ticket_category_id", channels)
    ensures r.Created? ==> r.welcome == TicketWelcome(c, mention) && r.staffPing == Resolve(c, "staff_role_id", guildRoles)
  {
    if c == map[] then NotConfigured
    else
      var open := FirstWhere(topics, OwnedBy(user));
      if open.Some? then AlreadyOpen(open.value)
      else
        var verified := Resolve(c, "verified_role_id", guildRoles);
        if verified.Some? && verified.value in userRoles then AlreadyVerified
        else
          var category := Resolve(c, "ticket_category_id", channels);
          if category.None? then NoCategory
          else Created(TicketPrefix + userName, TopicFor(user), category.value, TicketWelcome(c, mention),
                       Resolve(c, "staff_role_id", guildRoles))
  }

  /** Once a member's ticket exists, pressing the button again only points at it. */
  lemma SecondTicketRefused(c: ServerConfig, user: nat, userName: string, mention: string, userRoles: seq<int>,
                            topics: seq<Option<string>>, channels: set<int>, guildRoles: set<int>)
    requires Verify(c, user, userName, mention, userRoles, topics, channels, guildRoles).Created?
    ensures Verify(c, user, userName, mention, userRoles, topics + [Some(TopicFor(user))], channels, guildRoles)
            == AlreadyOpen(|topics|)
  {
    var topics' := topics + [Some(TopicFor(user))];
    OwnerIdOfTopic(user);
    forall j | 0 <= j < |topics|
      ensures !OwnedBy(user)(topics'[j])
    {
      assert topics'[j] == topics[j];
    }
    FirstWhereUnique(topics', OwnedBy(user), |topics|);
  }

  /** Another member's new ticket never blocks this member. */
  lemma OthersTicketIgnored(c: ServerConfig, user: nat, other: nat, userName: string, mention: string,
                            userRoles: seq<int>, topics: seq<Option<string>>, channels: set<int>, guildRoles: set<int>)
    requires other != user
    ensures Verify(c, user, userName, mention, userRoles, topics + [Some(TopicFor(other))], channels, guildRoles)
            == Verify(c, user, userName, mention, userRoles, topics, channels, guildRoles)
  {
    var topics' := topics + [Some(TopicFor(other))];
    OwnsTicketExactly(other, user);
    FirstWhereSnocMiss(topics, Some(TopicFor(other)), OwnedBy(user));
  }

  lemma FirstWhereSnocMiss<T>(s: seq<T>, x: T, p: T -> bool)
    requires !p(x)
    ensures FirstWhere(s + [x], p) == FirstWhere(s, p)
  {
    var s' := s + [x];
    forall j | 0 <= j < |s|
      ensures s'[j] == s[j]
    {
    }
    var r := FirstWhere(s, p);
    if r.Some? {
      FirstWhereUnique(s', p, r.value);
    } else {
      assert forall j :: 0 <= j < |s'| ==> !p(s'[j]) by {
        forall j | 0 <= j < |s'|
          ensures !p(s'[j])
        {
          if j < |s| { assert s'[j] == s[j]; } else { assert s'[j] == x; }
        }
      }
    }
  }

  /**
   * The channel the button creates passes every ticket check for staff, and
   * approving it grants the verified role to the member who opened it.
   */
  lemma CreatedTicketApprovable(c: ServerConfig, user: nat, userName: string, mention: string, userRoles: seq<int>,
                                topics: seq<Option<string>>, channels: set<int>, guildRoles: set<int>,
                                staffRoles: seq<int>, members: set<int>)
    requires Verify(c, user, userName, mention, userRoles, topics, channels, guildRoles).Created?
    requires IsStaff(false, c, staffRoles) && user != 0 && user in members
    requires Resolve(c, "verified_role_id", guildRoles).Some?
    ensures Approve(false, c, staffRoles, TicketPrefix + userName, Some(TopicFor(user)), members, guildRoles)
            == Approved(user, Resolve(c, "verified_role_id", guildRoles).value)
  {
    OwnerIdOfTopic(user);
    assert (TicketPrefix + userName)[..|TicketPrefix|] == TicketPrefix;
  }

  // ---------------------------------------------------------------------------
  // The cog
  // ---------------------------------------------------------------------------

  class VerificationSystem {
    /** The JSON configuration, one object per server. */
    var config: map<string, ServerConfig>

    /** `load_config`: whatever the file held (empty when it is missing). */
    constructor(loaded: map<string, ServerConfig>)
      ensures config == loaded
    {
      config := loaded;
    }

    function ServerConfigOf(g: nat): ServerConfig
      reads this
    {
      Lookup(config, g)
    }

    /** `set_server_config`: one key of one server, creating the server's object if needed. */
    method SetServerConfig(g: nat, key: string, v: Value)
      modifies this
      ensures config == old(config)[GuildKey(g) := old(ServerConfigOf(g))[key := v]]
      ensures ServerConfigOf(g) == old(ServerConfigOf(g))[key := v]
    {
      var k := GuildKey(g);
      if k !in config {
        config := config[k := map[]];
      }
      config := config[k := config[k][key := v]];
    }

    /** `setup_verify`: the seven keys, over whatever the server had. */
    method SetupVerify(g: nat, embedChannel: nat, category: nat, verifiedRole: nat, staffRole: nat, logChannel: nat,
                       welcome: string, decline: string)
      modifies this
      ensures config == old(config)[GuildKey(g) := old(ServerConfigOf(g))
                                       + SetupEntries(embedChannel, category, verifiedRole, staffRole, logChannel, welcome, decline)]
    {
      ghost var c0 := config;
      ghost var before := ServerConfigOf(g);
      var k := GuildKey(g);
      SetServerConfig(g, "embed_channel_id", Int(embedChannel));
      ghost var c1 := config;
      SetServerConfig(g, "ticket_category_id", Int(category));
      UpdateTwice(c0, k, c1[k], config[k]);
      ghost var c2 := config;
      SetServerConfig(g, "verified_role_id", Int(verifiedRole));
      UpdateTwice(c0, k, c2[k], config[k]);
      ghost var c3 := config;
      SetServerConfig(g, "staff_role_id", Int(staffRole));
      UpdateTwice(c0, k, c3[k], config[k]);
      ghost var c4 := config;
      SetServerConfig(g, "log_channel_id", Int(logChannel));
      UpdateTwice(c0, k, c4[k], config[k]);
      ghost var c5 := config;
      SetServerConfig(g, "ticket_message", Text(welcome));
      UpdateTwice(c0, k, c5[k], config[k]);
      ghost var c6 := config;
      SetServerConfig(g, "decline_message", Text(decline));
      UpdateTwice(c0, k, c6[k], config[k]);
      SetupAsUpdates(before, embedChannel, category, verifiedRole, staffRole, logChannel, welcome, decline);
    }

    /** The verify button: the decision of `Verify`, the open-ticket scan done as a loop. */
    method VerifyButton(g: nat, user: nat, userName: string, mention: string, userRoles: seq<int>,
                        topics: seq<Option<string>>, channels: set<int>, guildRoles: set<int>) returns (r: VerifyReply)
      ensures r == Verify(ServerConfigOf(g), user, userName, mention, userRoles, topics, channels, guildRoles)
    {
      var c := ServerConfigOf(g);
      if c == map[] {
        return NotConfigured;
      }
      var open := FindOpenTicket(topics, user);
      if open.Some? {
        return AlreadyOpen(open.value);
      }
      var verified := Resolve(c, "verified_role_id", guildRoles);
      if verified.Some? && verified.value in userRoles {
        return AlreadyVerified;
      }
      var category := Resolve(c, "ticket_category_id", channels);
      if category.None? {
        return NoCategory;
      }
      r := Created(TicketPrefix + userName, TopicFor(user), category.value, TicketWelcome(c, mention),
                   Resolve(c, "staff_role_id", guildRoles));
    }
  }
}
