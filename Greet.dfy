/**
 * `cogs/greet.py`: welcome messages for new members. A server enables
 * greetings per channel with an optional template and a cooldown; on join
 * every enabled channel of the server is visited, channels that no longer
 * exist lose their configuration, a user still within the channel's
 * cooldown is skipped, and every attempt, sent or failed, is logged.
 *
 * Time is whole seconds since the epoch, passed in as `now`; the ISO
 * strings the source stores compare as these numbers do.
 */
module Greet {
  import opened Common

  const DefaultCooldown := 60

  /** `default_greetings`. */
  const Defaults: seq<string> := [
    "<a:sukoon_Watermelon:1325703602379161676> Welcome, {user}, to {server}! A new journey begins—make yourself at home.",
    "<a:sukoon_white_bo:1335856241011855430> Hey {user}, you’ve arrived at {server}! Breathe in the good vibes and enjoy your stay.",
    "<a:sukoon_bandaid:1323990361647087729> {user}, welcome to {server}! A space to connect, share, and grow together.",
    "<:sukoon_btfl:1335856043477041204> Welcome aboard, {user}! {server} is a place of warmth and camaraderie—glad you’re here.",
    "<a:sukoon_butterfly:1323990263609298967> Hi {user}, you’ve found your way to {server}. Let’s create wonderful memories together!",
    "<a:sukoon_:1335855101897609226> {user}, welcome to {server}! You bring new energy to our growing community of {member_count}.",
    "<a:sukoon_rabbi:1335855768301473812> Glad to have you here, {user}! {server} just got brighter with your presence.",
    "<a:sukoon_yflower:1323990499660664883> A warm welcome to you, {user}! {server} is now {member_count} strong—let’s make it unforgettable.",
    "<:sukoon_starr:1335855541335097408> Hello {user}, welcome to {server}! Let the conversations flow and friendships grow.",
    "<a:heartspar:1335854160322498653> {user}, you’re now part of {server}! Settle in, unwind, and enjoy the journey."
  ]

  // ---------------------------------------------------------------------------
  // str.format with the three keywords
  // ---------------------------------------------------------------------------

  /**
   * The value of a replacement field named exactly `user`, `server` or
   * `member_count`. Any other name fails, as `KeyError` does for an unknown
   * keyword; index and attribute access such as `{user[0]}` or
   * `{member_count.real}`, which Python resolves, are not modelled and fail too.
   */
  function Field(name: string, user: string, server: string, count: string): (r: Option<string>)
    ensures r.Some? <==> name in {"user", "server", "member_count"}
  {
    if name == "user" then Some(user)
    else if name == "server" then Some(server)
    else if name == "member_count" then Some(count)
    else None
  }

  function Prefix(a: string, r: Option<string>): Option<string>
  {
    if r.None? then None else Some(a + r.value)
  }

  /**
   * `template.format(user=…, server=…, member_count=…)`: "{{" and "}}" are
   * literal braces, "{name}" is a field, and a lone brace or an unknown
   * field is an error (`None`).
   */
  function Format(t: string, user: string, server: string, count: string): (r: Option<string>)
    ensures Plain(t) ==> r == Some(t)
    decreases |t|
  {
    if t == [] then Some([])
    else if t[0] == '{' && |t| > 1 && t[1] == '{' then Prefix("{", Format(t[2..], user, server, count))
    else if t[0] == '}' && |t| > 1 && t[1] == '}' then Prefix("}", Format(t[2..], user, server, count))
    else if t[0] == '}' then None
    else if t[0] == '{' then
      if '}' !in t[1..] then None
      else
        var k := IndexOf(t[1..], '}');
        var v := Field(t[1..k + 1], user, server, count);
        if v.None? then None else Prefix(v.value, Format(t[k + 2..], user, server, count))
    else
      assert [t[0]] + t[1..] == t;
      Prefix([t[0]], Format(t[1..], user, server, count))
  }

  predicate Plain(s: string) { forall i :: 0 <= i < |s| ==> s[i] != '{' && s[i] != '}' }

  /** Prefixing twice is prefixing once with both; the empty prefix changes nothing. */
  lemma PrefixPrefix(a: string, b: string, r: Option<string>)
    ensures Prefix(a, Prefix(b, r)) == Prefix(a + b, r)
    ensures Prefix([], r) == r
  {
    if r.Some? {
      assert a + (b + r.value) == (a + b) + r.value;
      assert [] + r.value == r.value;
    }
  }

  /** One character other than a brace is copied. */
  lemma FormatPlainStep(c: char, u: string, user: string, server: string, count: string)
    requires c != '{' && c != '}'
    ensures Format([c] + u, user, server, count) == Prefix([c], Format(u, user, server, count))
  {
    assert ([c] + u)[1..] == u;
  }

  /** Text without braces formats to itself, in front of whatever follows. */
  lemma {:induction false} FormatPlainPrefix(a: string, s: string, user: string, server: string, count: string)
    requires Plain(a)
    ensures Format(a + s, user, server, count) == Prefix(a, Format(s, user, server, count))
    decreases |a|
  {
    var rest := Format(s, user, server, count);
    if a != [] {
      assert [a[0]] + (a[1..] + s) == a + s;
      FormatPlainStep(a[0], a[1..] + s, user, server, count);
      FormatPlainPrefix(a[1..], s, user, server, count);
      PrefixPrefix([a[0]], a[1..], rest);
      assert [a[0]] + a[1..] == a;
    } else {
      assert a + s == s;
      PrefixPrefix([], [], rest);
    }
  }

  /** A doubled brace is one literal brace in front of whatever follows. */
  lemma DoubledBraces(s: string, user: string, server: string, count: string)
    ensures Format("{{" + s, user, server, count) == Prefix("{", Format(s, user, server, count))
    ensures Format("}}" + s, user, server, count) == Prefix("}", Format(s, user, server, count))
  {
    assert ("{{" + s)[2..] == s;
    assert ("}}" + s)[2..] == s;
  }

  /** A field "{name}" formats to its value in front of whatever follows, or fails with the whole template. */
  lemma FormatField(name: string, s: string, user: string, server: string, count: string)
    requires |name| > 0 && name[0] != '{' && '}' !in name
    ensures Format("{" + name + "}" + s, user, server, count)
            == (var v := Field(name, user, server, count);
                if v.None? then None else Prefix(v.value, Format(s, user, server, count)))
  {
    var t := "{" + name + "}" + s;
    assert t[0] == '{' && t[1] == name[0];
    assert t[1..] == name + "}" + s;
    assert (name + "}" + s)[|name|] == '}';
    assert (name + "}" + s)[..|name|] == name;
    assert IndexOf(t[1..], '}') == |name|;
    assert t[1..|name| + 1] == name;
    assert t[|name| + 2..] == s;
  }

  /** `{user}` between plain text becomes the mention and the text around it is kept. */
  lemma UserPlaceholder(a: string, b: string, user: string, server: string, count: string)
    requires Plain(a) && Plain(b)
    ensures Format(a + "{user}" + b, user, server, count) == Some(a + user + b)
  {
    var field := "{" + "user" + "}" + b;
    assert a + "{user}" + b == a + field;
    FormatPlainPrefix(a, field, user, server, count);
    FormatField("user", b, user, server, count);
    assert Format(field, user, server, count) == Some(user + b);
    assert a + (user + b) == a + user + b;
  }

  /** A field name that is not one of the three makes the whole template fail. */
  lemma UnknownFieldFails(a: string, name: string, b: string, user: string, server: string, count: string)
    requires Plain(a) && |name| > 0 && name[0] != '{' && '}' !in name
    requires name !in {"user", "server", "member_count"}
    ensures Format(a + "{" + name + "}" + b, user, server, count).None?
  {
    assert a + "{" + name + "}" + b == a + ("{" + name + "}" + b);
    FormatPlainPrefix(a, "{" + name + "}" + b, user, server, count);
    FormatField(name, b, user, server, count);
  }

  // ---------------------------------------------------------------------------
  // Tables
  // ---------------------------------------------------------------------------

  /** A `greeting_channels` row, keyed by (guild, channel). */
  datatype Config = Config(message: Option<string>, errorCount: int, cooldown: int, enabled: bool)

  /** A `greeting_history` row. */
  datatype Entry = Entry(id: nat, guild: int, user: int, channel: int, message: string, timestamp: int, success: bool)

  datatype Table = Table(configs: map<(int, int), Config>, history: seq<Entry>, nextId: nat)

  predicate About(e: Entry, guild: int, user: int, channel: int)
  {
    e.guild == guild && e.user == user && e.channel == channel
  }

  /** `ORDER BY timestamp DESC LIMIT 1`: the latest greeting of the user in the channel, if any. */
  function LastGreeting(history: seq<Entry>, guild: int, user: int, channel: int): (r: Option<int>)
    ensures r.None? <==> forall e :: e in history ==> !About(e, guild, user, channel)
    ensures r.Some? ==> exists e :: e in history && About(e, guild, user, channel) && e.timestamp == r.value
    ensures r.Some? ==> forall e :: e in history && About(e, guild, user, channel) ==> e.timestamp <= r.value
  {
    if history == [] then None
    else
      var init := history[..|history| - 1];
      var e := history[|history| - 1];
      var before := LastGreeting(init, guild, user, channel);
      assert forall x :: x in history <==> x in init || x == e;
      if !About(e, guild, user, channel) then before
      else if before.None? || before.value < e.timestamp then Some(e.timestamp)
      else before
  }

  /** Some greeting of the user in the channel is more recent than the channel's cooldown. */
  predicate GreetedWithin(t: Table, guild: int, user: int, channel: int, now: int)
    requires (guild, channel) in t.configs
  {
    exists e :: e in t.history && About(e, guild, user, channel) && now - e.timestamp < t.configs[(guild, channel)].cooldown
  }

  /**
   * `_check_cooldown`: no configuration means no greeting; no earlier
   * greeting means the user may be greeted; otherwise the cooldown must
   * have elapsed since the latest one.
   */
  function CooldownOver(t: Table, guild: int, user: int, channel: int, now: int): (r: bool)
    ensures (guild, channel) !in t.configs ==> !r
    ensures (guild, channel) in t.configs && (forall e :: e in t.history ==> !About(e, guild, user, channel)) ==> r
    ensures r ==> forall e :: e in t.history && About(e, guild, user, channel) ==>
                    now - e.timestamp >= t.configs[(guild, channel)].cooldown
    ensures (guild, channel) in t.configs && GreetedWithin(t, guild, user, channel, now) ==> !r
  {
    if (guild, channel) !in t.configs then false
    else
      var last := LastGreeting(t.history, guild, user, channel);
      last.None? || now - last.value >= t.configs[(guild, channel)].cooldown
  }

  // ---------------------------------------------------------------------------
  // One channel of `_send_greeting`
  // ---------------------------------------------------------------------------

  /**
   * The server-side facts one greeting run sees: which channels still exist,
   * where the bot may send, where sending succeeds, and which default
   * greeting `random.choice` picks for a channel.
   */
  datatype Env = Env(guild: int, server: string, memberCount: nat, user: int, mention: string,
                     present: set<int>, permitted: set<int>, delivered: set<int>, now: int, pick: int -> nat)

  datatype Outcome = Removed(channel: int) | Cooling(channel: int) | FormatFailed(channel: int)
                   | Attempted(channel: int, message: string, success: bool)

  /**
   * The channel's own template, else the default greeting `random.choice`
   * picks; None when there is none to pick from, where `random.choice`
   * raises.
   */
  function Template(message: Option<string>, defaults: seq<string>, env: Env, channel: int): Option<string>
  {
    if message.Some? then message
    else if defaults == [] then None
    else Some(defaults[env.pick(channel) % |defaults|])
  }

  /** One configured channel, with the message it had when the run started. */
  function Step(t: Table, env: Env, defaults: seq<string>, channel: int, message: Option<string>): (Table, Outcome)
  {
    var key := (env.guild, channel);
    if channel !in env.present then
      (Table(t.configs - {key}, t.history, t.nextId), Removed(channel))
    else if !CooldownOver(t, env.guild, env.user, channel, env.now) then (t, Cooling(channel))
    else
      var template := Template(message, defaults, env, channel);
      var text := if template.None? then None else Format(template.value, env.mention, env.server, NatToString(env.memberCount));
      if text.None? then (t, FormatFailed(channel))
      else
        var success := channel in env.permitted && channel in env.delivered;
        var entry := Entry(t.nextId, env.guild, env.user, channel, text.value, env.now, success);
        var c := t.configs[key];
        var configs := t.configs[key := c.(errorCount := c.errorCount + if success then 0 else 1)];
        (Table(configs, t.history + [entry], t.nextId + 1), Attempted(channel, text.value, success))
  }

  /**
   * What one channel does: a vanished channel loses its row and nothing is
   * logged; a user within the cooldown changes nothing; an attempt is always
   * logged, and the error count grows by one exactly when it failed.
   */
  lemma StepFacts(t: Table, env: Env, defaults: seq<string>, channel: int, message: Option<string>)
    ensures var (t2, o) := Step(t, env, defaults, channel, message);
            var key := (env.guild, channel);
            o.channel == channel &&
            (o.Removed? <==> channel !in env.present) &&
            (o.Removed? ==> t2.configs == t.configs - {key} && t2.history == t.history) &&
            (o.Cooling? || o.FormatFailed? ==> t2 == t) &&
            (o.Cooling? ==> !CooldownOver(t, env.guild, env.user, channel, env.now)) &&
            (o.Attempted? ==>
               key in t.configs && CooldownOver(t, env.guild, env.user, channel, env.now) &&
               (o.success <==> channel in env.permitted && channel in env.delivered) &&
               t2.history == t.history + [Entry(t.nextId, env.guild, env.user, channel, o.message, env.now, o.success)] &&
               t2.configs.Keys == t.configs.Keys &&
               t2.configs[key].errorCount == t.configs[key].errorCount + (if o.success then 0 else 1) &&
               t2.configs[key].message == t.configs[key].message &&
               t2.configs[key].cooldown == t.configs[key].cooldown &&
               t2.configs[key].enabled == t.configs[key].enabled) &&
            (forall k :: k in t.configs && k != key ==> k in t2.configs && t2.configs[k] == t.configs[k])
  {
  }

  /** An attempt at `now`, sent or failed, starts the cooldown: a later run before it elapses skips the user. */
  lemma {:induction false} AttemptStartsCooldown(t: Table, env: Env, defaults: seq<string>, channel: int, message: Option<string>, later: int)
    requires Step(t, env, defaults, channel, message).1.Attempted?
    requires later - env.now < t.configs[(env.guild, channel)].cooldown
    ensures !CooldownOver(Step(t, env, defaults, channel, message).0, env.guild, env.user, channel, later)
  {
    StepFacts(t, env, defaults, channel, message);
    var t2 := Step(t, env, defaults, channel, message).0;
    var e := t2.history[|t2.history| - 1];
    assert e in t2.history && About(e, env.guild, env.user, channel);
    assert t2.configs[(env.guild, channel)].cooldown == t.configs[(env.guild, channel)].cooldown;
  }

  /** `_send_greeting`'s loop over the enabled channels; an error from `format` ends it. */
  function Run(t: Table, env: Env, defaults: seq<string>, rows: seq<(int, Option<string>)>): (r: (Table, seq<Outcome>, bool))
    ensures |r.1| <= |rows|
  {
    if rows == [] then (t, [], false)
    else
      var (t1, outs, aborted) := Run(t, env, defaults, rows[..|rows| - 1]);
      if aborted then (t1, outs, true)
      else
        var (t2, o) := Step(t1, env, defaults, rows[|rows| - 1].0, rows[|rows| - 1].1);
        (t2, outs + [o], o.FormatFailed?)
  }

  /** A run over a server's channels leaves other servers' rows alone and only ever adds history. */
  lemma {:induction false} RunKeepsOthers(t: Table, env: Env, defaults: seq<string>, rows: seq<(int, Option<string>)>)
    ensures var r := Run(t, env, defaults, rows).0;
            (forall k :: k in t.configs && k.0 != env.guild ==> k in r.configs && r.configs[k] == t.configs[k]) &&
            (forall k :: k in r.configs ==> k in t.configs) &&
            |t.history| <= |r.history| && r.history[..|t.history|] == t.history
  {
    if rows != [] {
      RunKeepsOthers(t, env, defaults, rows[..|rows| - 1]);
      var (t1, outs, aborted) := Run(t, env, defaults, rows[..|rows| - 1]);
      if !aborted {
        StepFacts(t1, env, defaults, rows[|rows| - 1].0, rows[|rows| - 1].1);
        var t2 := Step(t1, env, defaults, rows[|rows| - 1].0, rows[|rows| - 1].1).0;
        assert |t1.history| <= |t2.history| && t2.history[..|t1.history|] == t1.history;
        assert t2.history[..|t.history|] == t1.history[..|t.history|];
      }
    }
  }

  // ---------------------------------------------------------------------------
  // The cog
  // ---------------------------------------------------------------------------

  datatype EnableReply = NoPermission | Added | Updated

  datatype DisableReply = NotEnabled | Disabled

  class GreetingCog {
    var configs: map<(int, int), Config>
    var history: seq<Entry>
    var nextId: nat
    /** `self.default_greetings`. */
    const defaultGreetings: seq<string>

    function Tables(): Table
      reads this
    {
      Table(configs, history, nextId)
    }

    constructor()
      ensures configs == map[] && history == [] && nextId == 1 && defaultGreetings == Defaults
    {
      defaultGreetings := Defaults;
      configs := map[];
      history := [];
      nextId := 1;
    }

    /**
     * `greet_enable`: refused without send permission; otherwise the row is
     * inserted (error count 0, enabled) or its message and cooldown are
     * overwritten and it is enabled again. An empty custom message means the
     * defaults.
     */
    method GreetEnable(guild: int, channel: int, canSend: bool, customMessage: Option<string>, cooldown: int)
      returns (reply: EnableReply)
      modifies this
      ensures history == old(history) && nextId == old(nextId)
      ensures !canSend ==> reply == NoPermission && configs == old(configs)
      ensures canSend ==> reply == (if (guild, channel) in old(configs) then Updated else Added)
      ensures canSend ==> (guild, channel) in configs && configs.Keys == old(configs).Keys + {(guild, channel)}
      ensures canSend ==> var c := configs[(guild, channel)];
                          c.enabled && c.cooldown == cooldown &&
                          c.message == (if customMessage.Some? && customMessage.value != [] then customMessage else None) &&
                          c.errorCount == (if (guild, channel) in old(configs) then old(configs)[(guild, channel)].errorCount else 0)
      ensures forall k :: k in old(configs) && k != (guild, channel) ==> configs[k] == old(configs)[k]
    {
      if !canSend {
        return NoPermission;
      }
      var key := (guild, channel);
      var greeting := if customMessage.Some? && customMessage.value != [] then customMessage else None;
      if key in configs {
        reply := Updated;
        configs := configs[key := configs[key].(message := greeting, cooldown := cooldown, enabled := true)];
      } else {
        reply := Added;
        configs := configs[key := Config(greeting, 0, cooldown, true)];
      }
    }

    /** `greet_disable`: a missing row is "not enabled"; an existing one, enabled or not, is switched off. */
    method GreetDisable(guild: int, channel: int) returns (reply: DisableReply)
      modifies this
      ensures history == old(history) && nextId == old(nextId)
      ensures (guild, channel) !in old(configs) ==> reply == NotEnabled && configs == old(configs)
      ensures (guild, channel) in old(configs) ==>
                reply == Disabled && configs == old(configs)[(guild, channel) := old(configs)[(guild, channel)].(enabled := false)]
    {
      var key := (guild, channel);
      if key !in configs {
        return NotEnabled;
      }
      configs := configs[key := configs[key].(enabled := false)];
      reply := Disabled;
    }

    /**
     * `_send_greeting`: a bot is ignored outside test mode; otherwise each
     * enabled channel of the server, in the order the database lists them,
     * goes through `Step` until a template fails to format.
     */
    method SendGreeting(env: Env, bot: bool, testMode: bool, order: seq<int>) returns (outcomes: seq<Outcome>)
      requires NoDup(order)
      requires forall i :: 0 <= i < |order| ==> (env.guild, order[i]) in configs && configs[(env.guild, order[i])].enabled
      requires forall c :: (env.guild, c) in configs && configs[(env.guild, c)].enabled ==> c in order
      modifies this
      ensures bot && !testMode ==> outcomes == [] && Tables() == old(Tables())
      ensures !(bot && !testMode) ==>
                var r := Run(old(Tables()), env, defaultGreetings, Snapshot(old(configs), env.guild, order));
                Tables() == r.0 && outcomes == r.1
    {
      if bot && !testMode {
        return [];
      }
      var rows := Snapshot(configs, env.guild, order);
      ghost var start := Tables();
      outcomes := [];
      var i := 0;
      var aborted := false;
      while i < |rows| && !aborted
        invariant 0 <= i <= |rows|
        invariant Run(start, env, defaultGreetings, rows[..i]) == (Tables(), outcomes, aborted)
        invariant aborted ==> Run(start, env, defaultGreetings, rows) == (Tables(), outcomes, aborted)
        decreases |rows| - i
      {
        RunSnoc(start, env, defaultGreetings, rows, i, Tables(), outcomes);
        var (t2, o) := Step(Tables(), env, defaultGreetings, rows[i].0, rows[i].1);
        configs := t2.configs;
        history := t2.history;
        nextId := t2.nextId;
        outcomes := outcomes + [o];
        aborted := o.FormatFailed?;
        i := i + 1;
        if aborted {
          AbortedStays(start, env, defaultGreetings, rows, i);
        }
      }
      if !aborted {
        assert rows[..i] == rows;
      }
    }
  }

  /** The rows `SELECT channel_id, greeting_message` hands the loop, in the given order. */
  function Snapshot(configs: map<(int, int), Config>, guild: int, order: seq<int>): (r: seq<(int, Option<string>)>)
    requires forall i :: 0 <= i < |order| ==> (guild, order[i]) in configs
    ensures |r| == |order|
    ensures forall i :: 0 <= i < |order| ==> r[i] == (order[i], configs[(guild, order[i])].message)
  {
    seq(|order|, i requires 0 <= i < |order| => (order[i], configs[(guild, order[i])].message))
  }

  /** A run that has not stopped takes one more step on the next row. */
  lemma RunSnoc(t: Table, env: Env, defaults: seq<string>, rows: seq<(int, Option<string>)>, i: nat, now: Table, outs: seq<Outcome>)
    requires i < |rows| && Run(t, env, defaults, rows[..i]) == (now, outs, false)
    ensures var (t2, o) := Step(now, env, defaults, rows[i].0, rows[i].1);
            Run(t, env, defaults, rows[..i + 1]) == (t2, outs + [o], o.FormatFailed?)
  {
    assert rows[..i + 1][..i] == rows[..i];
  }

  /** Once a run has stopped, the remaining rows change nothing. */
  lemma {:induction false} AbortedStays(t: Table, env: Env, defaults: seq<string>, rows: seq<(int, Option<string>)>, i: nat)
    requires i <= |rows| && Run(t, env, defaults, rows[..i]).2
    ensures Run(t, env, defaults, rows) == Run(t, env, defaults, rows[..i])
    decreases |rows| - i
  {
    if i < |rows| {
      assert rows[..|rows| - 1][..i] == rows[..i];
      AbortedStays(t, env, defaults, rows[..|rows| - 1], i);
    } else {
      assert rows[..i] == rows;
    }
  }
}
