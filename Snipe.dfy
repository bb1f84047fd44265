/**
 * `cogs/snipe.py`: deleted messages are logged per channel with their safe
 * attachment links; `.snipe` shows the ten latest of the channel that are at
 * most seven days old, one per page, with a cached member lookup for the
 * author.
 *
 * Time is whole seconds since the epoch, passed in as `now`; the ISO
 * strings the source stores compare as these numbers do.
 */
module Snipe {
  import opened Common

  const MaxAge := 7 * 86400
  const QueryLimit := 10
  const CacheSeconds := 5 * 60
  const SafePrefix := "https://cdn.discordapp.com/"
  const NoContent := "*No content*"

  // ---------------------------------------------------------------------------
  // Readable time
  // ---------------------------------------------------------------------------

  /** The parts of "Nd Nh Nm Ns" that are shown; an absent part is `None`. */
  datatype Parts = Parts(days: Option<nat>, hours: Option<nat>, minutes: Option<nat>, seconds: nat)

  /**
   * The parts shown for a `timedelta` of `diff` seconds. Its `days` and
   * `seconds` attributes are the floor quotient and the remainder by 86400,
   * which Dafny's `/` and `%` also are for a positive divisor.
   */
  function PartsOf(diff: int): (p: Parts)
    ensures p.days.Some? <==> diff >= 86400
    ensures p.hours.Some? <==> diff % 86400 >= 3600
    ensures p.minutes.Some? <==> diff % 86400 >= 60
    ensures p.seconds < 60
    ensures p.hours.Some? ==> p.hours.value < 24
    ensures p.minutes.Some? ==> p.minutes.value < 60
  {
    var days := diff / 86400;
    var secs := diff % 86400;
    Parts(if days > 0 then Some(days) else None,
          if secs >= 3600 then Some(secs / 3600) else None,
          if secs >= 60 then Some((secs % 3600) / 60) else None,
          secs % 60)
  }

  function OrZero(o: Option<nat>): nat { if o.Some? then o.value else 0 }

  /** The number of seconds a set of parts stands for. */
  function Value(p: Parts): nat
  {
    86400 * OrZero(p.days) + 3600 * OrZero(p.hours) + 60 * OrZero(p.minutes) + p.seconds
  }

  lemma DivMod60(a: int, q: int, r: int)
    requires a == 60 * q + r && 0 <= r < 60
    ensures a % 60 == r
  {
  }

  /** No time is lost: the shown parts add up to the elapsed time, and a negative delta shows its remainder within the day. */
  lemma PartsAddUp(diff: int)
    ensures diff >= 0 ==> Value(PartsOf(diff)) == diff
    ensures diff < 0 ==> Value(PartsOf(diff)) == diff % 86400
  {
    var days := diff / 86400;
    var secs := diff % 86400;
    var h := secs / 3600;
    var rest := secs % 3600;
    var m := rest / 60;
    var s := rest % 60;
    assert secs == 3600 * h + rest;
    assert rest == 60 * m + s;
    DivMod60(secs, 60 * h + m, s);
    var p := PartsOf(diff);
    assert p.seconds == s;
    if secs >= 3600 {
      assert OrZero(p.hours) == h && OrZero(p.minutes) == m;
    } else if secs >= 60 {
      assert h == 0 && rest == secs;
      assert OrZero(p.hours) == 0 && OrZero(p.minutes) == m;
    } else {
      assert h == 0 && m == 0;
      assert OrZero(p.hours) == 0 && OrZero(p.minutes) == 0;
    }
    assert 3600 * OrZero(p.hours) + 60 * OrZero(p.minutes) + p.seconds == secs;
    if diff >= 0 {
      assert diff == 86400 * days + secs;
      assert OrZero(p.days) == days;
    } else {
      assert OrZero(p.days) == 0;
    }
  }

  /** The parts before `.strip()`. */
  function RawText(p: Parts): string
  {
    Part(p.days, 'd') + Part(p.hours, 'h') + Part(p.minutes, 'm') + NatToString(p.seconds) + "s"
  }

  /** One shown part, such as "3h ", or nothing. */
  function Part(o: Option<nat>, unit: char): string
  {
    if o.Some? then NatToString(o.value) + [unit, ' '] else ""
  }

  /** A letter occurs in a part exactly when the part is shown with that unit. */
  lemma PartLetter(o: Option<nat>, unit: char, ch: char)
    requires !IsDigit(ch) && ch != ' '
    ensures ch in Part(o, unit) <==> o.Some? && ch == unit
  {
    if o.Some? {
      DigitsNoLetter(o.value, ch);
      assert Part(o, unit) == NatToString(o.value) + [unit, ' '];
    }
  }

  lemma StripUnchanged(s: string)
    requires |s| > 0 && !IsSpace(s[0]) && !IsSpace(s[|s| - 1])
    ensures Strip(s) == s
  {
    assert LeadingSpace(s) == 0;
    assert s[0..] == s;
    assert TrailingSpace(s) == 0;
  }

  lemma DigitsNoLetter(n: nat, c: char)
    requires !IsDigit(c)
    ensures c !in NatToString(n)
  {
  }

  lemma RawTextFacts(p: Parts)
    ensures RawText(p) != [] && IsDigit(RawText(p)[0]) && RawText(p)[|RawText(p)| - 1] == 's'
    ensures 'd' in RawText(p) <==> p.days.Some?
    ensures 'h' in RawText(p) <==> p.hours.Some?
    ensures 'm' in RawText(p) <==> p.minutes.Some?
    ensures EndsWith(RawText(p), NatToString(p.seconds) + "s")
  {
    var a := Part(p.days, 'd');
    var b := Part(p.hours, 'h');
    var c := Part(p.minutes, 'm');
    var e := NatToString(p.seconds) + "s";
    var r := RawText(p);
    assert r == (a + b + c) + e;
    assert r[|r| - |e|..] == e;
    PartLetter(p.days, 'd', 'd'); PartLetter(p.days, 'd', 'h'); PartLetter(p.days, 'd', 'm');
    PartLetter(p.hours, 'h', 'd'); PartLetter(p.hours, 'h', 'h'); PartLetter(p.hours, 'h', 'm');
    PartLetter(p.minutes, 'm', 'd'); PartLetter(p.minutes, 'm', 'h'); PartLetter(p.minutes, 'm', 'm');
    DigitsNoLetter(p.seconds, 'd'); DigitsNoLetter(p.seconds, 'h'); DigitsNoLetter(p.seconds, 'm');
    assert 'd' !in e && 'h' !in e && 'm' !in e;
    var lead := a + b + c;
    if lead != [] {
      assert IsDigit(lead[0]) by {
        if a != [] { assert lead[0] == NatToString(p.days.value)[0]; }
        else if b != [] { assert lead[0] == NatToString(p.hours.value)[0]; }
        else { assert lead[0] == NatToString(p.minutes.value)[0]; }
      }
      assert r[0] == lead[0];
    } else {
      assert r == e;
    }
  }

  /** The "deleted at" field: each unit appears exactly when its threshold is met, and the seconds always close it. */
  function ReadableTime(diff: int): (r: string)
    ensures 'd' in r <==> diff >= 86400
    ensures 'h' in r <==> diff % 86400 >= 3600
    ensures 'm' in r <==> diff % 86400 >= 60
    ensures EndsWith(r, NatToString(PartsOf(diff).seconds) + "s")
  {
    ReadableTimeFacts(PartsOf(diff));
    Strip(RawText(PartsOf(diff)))
  }

  /** Stripping leaves the shown parts as they are. */
  lemma ReadableTimeFacts(p: Parts)
    ensures 'd' in Strip(RawText(p)) <==> p.days.Some?
    ensures 'h' in Strip(RawText(p)) <==> p.hours.Some?
    ensures 'm' in Strip(RawText(p)) <==> p.minutes.Some?
    ensures EndsWith(Strip(RawText(p)), NatToString(p.seconds) + "s")
  {
    var raw := RawText(p);
    RawTextFacts(p);
    StripUnchanged(raw);
  }

  // ---------------------------------------------------------------------------
  // Attachments
  // ---------------------------------------------------------------------------

  predicate Safe(url: string) { StartsWith(url, SafePrefix) }

  /** `safe_attachments`: only Discord CDN links are kept, in order. */
  function SafeAttachments(urls: seq<string>): (r: seq<string>)
    ensures forall u :: u in r <==> u in urls && Safe(u)
    ensures forall k :: 0 <= k < |r| ==> Safe(r[k])
  {
    Filter(urls, Safe)
  }

  /** The `attachments` column: the safe links joined with commas, or NULL when there are none. */
  function Stored(urls: seq<string>): (r: Option<string>)
    ensures r.None? <==> SafeAttachments(urls) == []
  {
    var safe := SafeAttachments(urls);
    if safe == [] then None else Some(Join(",", safe))
  }

  /** How the embed shows the stored links. */
  datatype Shown = NoAttachment | Image(url: string) | Links(urls: seq<string>)

  /** A NULL or empty column shows nothing; one link becomes the image; several are listed. */
  function ShowAttachments(stored: Option<string>): (a: Shown)
    ensures stored.None? || stored.value == [] ==> a == NoAttachment
    ensures a.Links? ==> |a.urls| > 1
    ensures a.Image? <==> stored.Some? && stored.value != [] && ',' !in stored.value
    ensures a.Image? ==> a.url == stored.value
  {
    if stored.None? || stored.value == [] then NoAttachment
    else
      var parts := SplitOn(stored.value, ',');
      SplitOnSingle(stored.value, ',');
      if |parts| == 1 then Image(parts[0]) else Links(parts)
  }

  lemma {:induction false} SplitJoin(parts: seq<string>, sep: char)
    requires |parts| > 0
    requires forall k :: 0 <= k < |parts| ==> sep !in parts[k]
    ensures SplitOn(Join([sep], parts), sep) == parts
    decreases |parts|
  {
    if |parts| > 1 {
      var tail := Join([sep], parts[1..]);
      assert Join([sep], parts) == parts[0] + [sep] + tail;
      SplitOnStep(parts[0], sep, tail);
      SplitJoin(parts[1..], sep);
      assert parts == [parts[0]] + parts[1..];
    }
  }

  lemma JoinNonEmpty(parts: seq<string>, sep: string)
    requires |parts| > 0 && |parts[0]| > 0
    ensures |Join(sep, parts)| > 0
  {
  }

  /**
   * Storing and showing: no safe link gives no attachment, exactly one
   * becomes the image, and more are listed as links in order (for links
   * without a comma in them).
   */
  lemma AttachmentsRoundTrip(urls: seq<string>)
    requires forall k :: 0 <= k < |urls| ==> ',' !in urls[k]
    ensures var safe := SafeAttachments(urls);
            var a := ShowAttachments(Stored(urls));
            (a == NoAttachment <==> |safe| == 0) &&
            (|safe| == 1 ==> a == Image(safe[0])) &&
            (|safe| > 1 ==> a == Links(safe))
  {
    var safe := SafeAttachments(urls);
    if safe != [] {
      forall k | 0 <= k < |safe| ensures ',' !in safe[k] {
        assert safe[k] in urls;
      }
      assert Safe(safe[0]);
      JoinNonEmpty(safe, ",");
      SplitJoin(safe, ',');
    }
  }

  /** "[Attachment i](url)" lines, numbered from 1. */
  function LinkList(urls: seq<string>): string
  {
    Join("\n", seq(|urls|, i requires 0 <= i < |urls| => "[Attachment " + NatToString(i + 1) + "](" + urls[i] + ")"))
  }

  /** The "content" field: the text (or a placeholder), followed by the link list when there are several links. */
  function ContentSection(content: Option<string>, stored: Option<string>): (r: string)
    ensures StartsWith(r, if content.None? || content.value == [] then NoContent else content.value)
    ensures !ShowAttachments(stored).Links? ==> r == (if content.None? || content.value == [] then NoContent else content.value)
  {
    var text := if content.None? || content.value == [] then NoContent else content.value;
    var a := ShowAttachments(stored);
    if a.Links? then
      var r := text + "\n\n**Attachments:**\n" + LinkList(a.urls);
      assert r[..|text|] == text;
      r
    else text
  }

  // ---------------------------------------------------------------------------
  // The log and the query
  // ---------------------------------------------------------------------------

  /** A row of `deleted_messages`. */
  datatype Deleted = Deleted(id: nat, channel: int, content: Option<string>, author: string,
                             authorId: Option<nat>, deletedAt: int, attachments: Option<string>)

  /** An index of a row deleted last (the first such row on ties). */
  function Latest(rows: seq<Deleted>): (i: nat)
    requires |rows| > 0
    ensures i < |rows|
    ensures forall j :: 0 <= j < |rows| ==> rows[j].deletedAt <= rows[i].deletedAt
  {
    if |rows| == 1 then 0
    else
      var i := Latest(rows[..|rows| - 1]);
      assert forall j :: 0 <= j < |rows| - 1 ==> rows[j] == rows[..|rows| - 1][j];
      if rows[|rows| - 1].deletedAt > rows[i].deletedAt then |rows| - 1 else i
  }

  /**
   * `ORDER BY deleted_at DESC LIMIT k`: the `k` latest rows, latest first;
   * every row left out was deleted no later than every row taken.
   */
  function Top(rows: seq<Deleted>, k: nat): (r: seq<Deleted>)
    ensures |r| == Min(k, |rows|)
    decreases k
  {
    if k == 0 || rows == [] then []
    else
      var i := Latest(rows);
      var rest := Omit(rows, i);
      [rows[i]] + Top(rest, k - 1)
  }

  /** `rows` without the element at `i`. */
  function Omit(rows: seq<Deleted>, i: nat): (r: seq<Deleted>)
    requires i < |rows|
    ensures |r| == |rows| - 1
  {
    rows[..i] + rows[i + 1..]
  }

  /** Leaving a row out adds none. */
  lemma OmitWithin(rows: seq<Deleted>, i: nat, x: Deleted)
    requires i < |rows| && x in Omit(rows, i)
    ensures x in rows
  {
    var r := Omit(rows, i);
    var j :| 0 <= j < |r| && r[j] == x;
    assert x == rows[if j < i then j else j + 1];
  }

  /** The query only returns rows it was given. */
  lemma TopWithinAll(rows: seq<Deleted>, k: nat)
    ensures forall x :: x in Top(rows, k) ==> x in rows
  {
    forall x | x in Top(rows, k) ensures x in rows {
      TopWithin(rows, k, x);
    }
  }

  /** One row of the query's result comes from its input. */
  lemma {:induction false} TopWithin(rows: seq<Deleted>, k: nat, x: Deleted)
    requires x in Top(rows, k)
    ensures x in rows
    decreases k
  {
    TopUnfold(rows, k);
    var i := Latest(rows);
    var rest := Omit(rows, i);
    if x != rows[i] {
      TopWithin(rest, k - 1, x);
      OmitWithin(rows, i, x);
    }
  }

  /** Latest first. */
  predicate Descending(r: seq<Deleted>)
  {
    forall i, j :: 0 <= i < j < |r| ==> r[j].deletedAt <= r[i].deletedAt
  }

  /** Every row of `rows` left out of `r` was deleted no later than every row of `r`. */
  predicate NoneLaterLeftOut(rows: seq<Deleted>, r: seq<Deleted>)
  {
    forall x, y :: x in rows && x !in r && y in r ==> x.deletedAt <= y.deletedAt
  }

  /** The rows come latest first. */
  lemma {:induction false} TopSorted(rows: seq<Deleted>, k: nat)
    ensures Descending(Top(rows, k))
    decreases k
  {
    if k > 0 && rows != [] {
      var i := Latest(rows);
      var tail := Top(Omit(rows, i), k - 1);
      TopSorted(Omit(rows, i), k - 1);
      var r := Top(rows, k);
      assert r == [rows[i]] + tail;
      forall j | 0 < j < |r| ensures r[j].deletedAt <= r[0].deletedAt {
        assert r[j] == tail[j - 1];
        TopWithin(Omit(rows, i), k - 1, r[j]);
        OmitWithin(rows, i, r[j]);
        LatestBound(rows, r[j]);
      }
    }
  }

  /** Every row left out was deleted no later than every row taken. */
  lemma TopLatest(rows: seq<Deleted>, k: nat)
    ensures NoneLaterLeftOut(rows, Top(rows, k))
  {
    forall x, y | x in rows && x !in Top(rows, k) && y in Top(rows, k) ensures x.deletedAt <= y.deletedAt {
      TopLatestAt(rows, k, Top(rows, k), x, y);
    }
  }

  lemma {:induction false} TopLatestAt(rows: seq<Deleted>, k: nat, t: seq<Deleted>, x: Deleted, y: Deleted)
    requires t == Top(rows, k)
    requires x in rows && x !in t && y in t
    ensures x.deletedAt <= y.deletedAt
    decreases k
  {
    TopUnfold(rows, k);
    var i := Latest(rows);
    var rest := Omit(rows, i);
    var tail := Top(rest, k - 1);
    ConsSplit(rows[i], tail, t, x, y);
    if y in tail {
      OmitKeeps(rows, i, x);
      TopLatestAt(rest, k - 1, tail, x, y);
    } else {
      LatestBound(rows, x);
    }
  }

  /** What membership in `[a] + tail` says of one row left out and one taken. */
  lemma ConsSplit(a: Deleted, tail: seq<Deleted>, t: seq<Deleted>, x: Deleted, y: Deleted)
    requires t == [a] + tail && x !in t && y in t
    ensures x != a && x !in tail
    ensures y == a || y in tail
  {
    assert t[0] == a;
    assert forall j :: 0 <= j < |tail| ==> t[j + 1] == tail[j];
  }

  /** A query with something to take takes the latest row first. */
  lemma TopUnfold(rows: seq<Deleted>, k: nat)
    ensures Top(rows, k) != [] ==> k > 0 && rows != []
    ensures k > 0 && rows != [] ==> Top(rows, k) == [rows[Latest(rows)]] + Top(Omit(rows, Latest(rows)), k - 1)
  {
  }

  lemma OmitKeeps(rows: seq<Deleted>, i: nat, x: Deleted)
    requires i < |rows| && x in rows && x != rows[i]
    ensures x in Omit(rows, i)
  {
    var j :| 0 <= j < |rows| && rows[j] == x;
    var r := Omit(rows, i);
    assert j != i;
    assert r[if j < i then j else j - 1] == x;
  }

  /** No row was deleted later than the one `Latest` picks. */
  lemma LatestBound(rows: seq<Deleted>, x: Deleted)
    requires x in rows
    ensures x.deletedAt <= rows[Latest(rows)].deletedAt
  {
    var j :| 0 <= j < |rows| && rows[j] == x;
  }

  predicate InChannel(channel: int, m: Deleted) { m.channel == channel }

  /** `WHERE channel_id = ?`. */
  function ChannelRows(log: seq<Deleted>, channel: int): (r: seq<Deleted>)
    ensures forall x :: x in r <==> x in log && x.channel == channel
  {
    Filter(log, m => InChannel(channel, m))
  }

  /** The query of `snipe`: the ten latest rows of the channel, latest first. */
  function Query(log: seq<Deleted>, channel: int): (r: seq<Deleted>)
    ensures |r| <= QueryLimit
    ensures forall x :: x in r ==> x in log && x.channel == channel
    ensures Descending(r)
  {
    TopSorted(ChannelRows(log, channel), QueryLimit);
    TopWithinAll(ChannelRows(log, channel), QueryLimit);
    Top(ChannelRows(log, channel), QueryLimit)
  }

  predicate Fresh(now: int, m: Deleted) { now - m.deletedAt <= MaxAge }

  function FreshAt(now: int): Deleted -> bool { m => Fresh(now, m) }

  /** `valid_msgs`: the queried rows at most seven days old, in query order. */
  function Recent(rows: seq<Deleted>, now: int): (r: seq<Deleted>)
    ensures forall x :: x in r <==> x in rows && Fresh(now, x)
  {
    Filter(rows, FreshAt(now))
  }

  /** What `snipe` shows is at most ten rows of the channel, each at most seven days old, and none older than a channel row left out. */
  lemma {:induction false} ShownFacts(log: seq<Deleted>, channel: int, now: int)
    ensures var shown := Recent(Query(log, channel), now);
            |shown| <= QueryLimit &&
            (forall x :: x in shown ==> x in log && x.channel == channel && now - x.deletedAt <= MaxAge) &&
            (forall x, y :: x in log && x.channel == channel && x !in Query(log, channel) && y in shown ==>
                             x.deletedAt <= y.deletedAt)
  {
    var q := Query(log, channel);
    var all := ChannelRows(log, channel);
    TopLatest(all, QueryLimit);
    assert |Recent(q, now)| <= |q|;
    forall x, y | x in log && x.channel == channel && x !in q && y in Recent(q, now)
      ensures x.deletedAt <= y.deletedAt
    {
      assert x in all;
      assert y in q;
    }
  }

  // ---------------------------------------------------------------------------
  // Members and the cache key
  // ---------------------------------------------------------------------------

  datatype Member = Member(id: nat, name: string, displayName: string)

  /** `f"{guild.id}_{author_id}"`, where a missing id prints as "None". */
  function CacheKey(guild: nat, author: Option<nat>): string
  {
    NatToString(guild) + "_" + (if author.Some? then NatToString(author.value) else "None")
  }

  lemma DigitsPrefix(a: string, b: string, x: string, y: string)
    requires AllDigits(a) && AllDigits(b) && |a| <= |b|
    requires a + "_" + x == b + "_" + y
    ensures a == b && x == y
  {
    var s := a + "_" + x;
    assert s[|a|] == '_' && !IsDigit(s[|a|]);
    assert s[..|a|] == a;
    assert (b + "_" + y)[..|b|] == b;
    assert s[|a| + 1..] == x;
    assert (b + "_" + y)[|b| + 1..] == y;
  }

  lemma DigitsValueEq(a: string, b: string)
    requires AllDigits(a) && a == b
    ensures DigitsValue(a) == DigitsValue(b)
  {
  }

  /** Different (guild, author) pairs never share a cache entry. */
  lemma CacheKeyInjective(g1: nat, a1: Option<nat>, g2: nat, a2: Option<nat>)
    requires CacheKey(g1, a1) == CacheKey(g2, a2)
    ensures g1 == g2 && a1 == a2
  {
    var s1 := NatToString(g1);
    var s2 := NatToString(g2);
    var t1 := if a1.Some? then NatToString(a1.value) else "None";
    var t2 := if a2.Some? then NatToString(a2.value) else "None";
    if |s1| <= |s2| { DigitsPrefix(s1, s2, t1, t2); } else { DigitsPrefix(s2, s1, t2, t1); }
    NatToStringRoundTrip(g1);
    NatToStringRoundTrip(g2);
    if a1.Some? && a2.Some? {
      NatToStringRoundTrip(a1.value);
      NatToStringRoundTrip(a2.value);
    }
  }

  /** A Python id is truthy unless it is missing or 0. */
  predicate Truthy(id: Option<nat>) { id.Some? && id.value != 0 }

  /**
   * The uncached lookup: by id first when the id is truthy, then the first
   * member with that user name, then the first with that display name.
   */
  function FindMember(members: seq<Member>, authorId: Option<nat>, authorName: string): (r: Option<Member>)
    ensures r.Some? ==> r.value in members
    ensures r.Some? ==> ((Truthy(authorId) && r.value.id == authorId.value) || r.value.name == authorName
                         || r.value.displayName == authorName)
    ensures r.None? ==> forall m :: m in members ==> (m.name != authorName && m.displayName != authorName
                                                   && !(Truthy(authorId) && m.id == authorId.value))
  {
    var byId := if Truthy(authorId) then FirstWhere(members, (m: Member) => m.id == authorId.value) else None;
    if byId.Some? then Some(members[byId.value])
    else
      var byName := FirstWhere(members, (m: Member) => m.name == authorName);
      if byName.Some? then Some(members[byName.value])
      else
        var byDisplay := FirstWhere(members, (m: Member) => m.displayName == authorName);
        if byDisplay.Some? then Some(members[byDisplay.value]) else None
  }

  /** A cache entry is used only strictly before its expiry. */
  predicate Hit(cache: map<string, Option<Member>>, expiry: map<string, int>, key: string, now: int)
  {
    key in cache && key in expiry && now < expiry[key]
  }

  /** The answer of one cached member lookup, and the two dictionaries after it. */
  function CachedLookup(cache: map<string, Option<Member>>, expiry: map<string, int>, key: string, now: int,
                        members: seq<Member>, authorId: Option<nat>, authorName: string)
    : (r: (Option<Member>, map<string, Option<Member>>, map<string, int>))
    ensures Hit(cache, expiry, key, now) ==> r.0 == cache[key] && r.1 == cache && r.2 == expiry
    ensures !Hit(cache, expiry, key, now) ==> r.0 == FindMember(members, authorId, authorName)
    ensures key in r.1 && r.1[key] == r.0 && Hit(r.1, r.2, key, now)
    ensures forall k :: k != key ==> (k in r.1 <==> k in cache) && (k in r.1 ==> r.1[k] == cache[k])
    ensures forall k :: k != key ==> (k in r.2 <==> k in expiry) && (k in r.2 ==> r.2[k] == expiry[k])
  {
    if Hit(cache, expiry, key, now) then (cache[key], cache, expiry)
    else
      var found := FindMember(members, authorId, authorName);
      (found, cache[key := found], expiry[key := now + CacheSeconds])
  }

  /** `author_mention`: the member's mention, else a mention built from a truthy id, else the stored name. */
  function Mention(member: Option<Member>, authorId: Option<nat>, author: string): (r: string)
    ensures member.Some? ==> r == "<@" + NatToString(member.value.id) + ">"
    ensures member.None? && Truthy(authorId) ==> r == "<@" + NatToString(authorId.value) + ">"
    ensures member.None? && !Truthy(authorId) ==> r == author
  {
    if member.Some? then "<@" + NatToString(member.value.id) + ">"
    else if Truthy(authorId) then "<@" + NatToString(authorId.value) + ">"
    else author
  }

  /** The fields of the snipe embed this model keeps. */
  datatype Embed = Embed(mention: string, deletedAt: string, content: string, image: Option<string>)

  function EmbedOf(m: Deleted, now: int, member: Option<Member>): (e: Embed)
    ensures e.deletedAt == ReadableTime(now - m.deletedAt)
    ensures e.image.Some? <==> m.attachments.Some? && m.attachments.value != [] && ',' !in m.attachments.value
    ensures e.image.Some? ==> e.image == m.attachments
    ensures e.mention == Mention(member, m.authorId, m.author)
    ensures e.content == ContentSection(m.content, m.attachments)
  {
    var a := ShowAttachments(m.attachments);
    Embed(Mention(member, m.authorId, m.author), ReadableTime(now - m.deletedAt),
          ContentSection(m.content, m.attachments), if a.Image? then Some(a.url) else None)
  }

  // ---------------------------------------------------------------------------
  // The cog
  // ---------------------------------------------------------------------------

  /** What `snipe` answers; a shown list comes with the first page's embed and the member found for its author. */
  datatype SnipeReply = NotReady | NoMessages | TooOld | Shown(rows: seq<Deleted>, first: Embed, member: Option<Member>)

  class SnipeCog {
    var dbReady: bool
    /** `deleted_messages`, in insertion order. */
    var log: seq<Deleted>
    /** The next AUTOINCREMENT id. */
    var nextId: nat
    var memberCache: map<string, Option<Member>>
    var cacheExpiry: map<string, int>

    /** The two dictionaries always have the same keys. */
    predicate Valid()
      reads this
    {
      memberCache.Keys == cacheExpiry.Keys
    }

    constructor()
      ensures Valid() && !dbReady && log == [] && memberCache == map[] && cacheExpiry == map[]
    {
      dbReady := false;
      log := [];
      nextId := 1;
      memberCache := map[];
      cacheExpiry := map[];
    }

    /** `_init_db` succeeded. */
    method InitDb()
      modifies this
      ensures dbReady && log == old(log) && nextId == old(nextId)
      ensures memberCache == old(memberCache) && cacheExpiry == old(cacheExpiry)
    {
      dbReady := true;
    }

    /** `on_message_delete`: bot messages and a database that is not ready are ignored; otherwise one row is appended. */
    method OnMessageDelete(bot: bool, channel: int, content: Option<string>, author: string, authorId: nat,
                           urls: seq<string>, now: int)
      modifies this
      ensures dbReady == old(dbReady) && memberCache == old(memberCache) && cacheExpiry == old(cacheExpiry)
      ensures bot || !dbReady ==> log == old(log) && nextId == old(nextId)
      ensures !bot && dbReady ==> log == old(log) + [Deleted(old(nextId), channel, content, author, Some(authorId),
                                                             now, Stored(urls))]
                                  && nextId == old(nextId) + 1
    {
      if bot || !dbReady {
        return;
      }
      log := log + [Deleted(nextId, channel, content, author, Some(authorId), now, Stored(urls))];
      nextId := nextId + 1;
    }

    /** `get_member_cached`: a live entry answers, a `None` result included; otherwise the lookup result is kept for five minutes. */
    method GetMemberCached(guild: nat, authorId: Option<nat>, authorName: string, now: int, members: seq<Member>)
      returns (member: Option<Member>)
      requires Valid()
      modifies this
      ensures Valid()
      ensures dbReady == old(dbReady) && log == old(log) && nextId == old(nextId)
      ensures var key := CacheKey(guild, authorId);
              if Hit(old(memberCache), old(cacheExpiry), key, now) then
                member == old(memberCache)[key] && memberCache == old(memberCache) && cacheExpiry == old(cacheExpiry)
              else
                member == FindMember(members, authorId, authorName)
                && memberCache == old(memberCache)[key := member]
                && cacheExpiry == old(cacheExpiry)[key := now + CacheSeconds]
                && forall later :: Hit(memberCache, cacheExpiry, key, later) <==> later < now + CacheSeconds
      ensures (member, memberCache, cacheExpiry)
              == CachedLookup(old(memberCache), old(cacheExpiry), CacheKey(guild, authorId), now, members, authorId, authorName)
    {
      var key := CacheKey(guild, authorId);
      if key in memberCache && key in cacheExpiry && now < cacheExpiry[key] {
        return memberCache[key];
      }
      member := FindMember(members, authorId, authorName);
      memberCache := memberCache[key := member];
      cacheExpiry := cacheExpiry[key := now + CacheSeconds];
    }

    /**
     * One pass of `_periodic_cleanup`: rows older than seven days are
     * deleted (when the database is ready) and cache entries past their
     * expiry are dropped from both dictionaries.
     */
    method PeriodicCleanup(now: int)
      requires Valid()
      modifies this
      ensures Valid()
      ensures dbReady == old(dbReady) && nextId == old(nextId)
      ensures dbReady ==> log == Filter(old(log), (m: Deleted) => m.deletedAt >= now - MaxAge)
      ensures !dbReady ==> log == old(log)
      ensures forall k :: k in memberCache <==> k in old(memberCache) && old(cacheExpiry)[k] >= now
      ensures forall k :: k in memberCache ==> memberCache[k] == old(memberCache)[k] && cacheExpiry[k] == old(cacheExpiry)[k]
    {
      if dbReady {
        log := Filter(log, (m: Deleted) => m.deletedAt >= now - MaxAge);
      }
      var expired := set k | k in cacheExpiry && now > cacheExpiry[k];
      memberCache := map k | k in memberCache && k !in expired :: memberCache[k];
      cacheExpiry := map k | k in cacheExpiry && k !in expired :: cacheExpiry[k];
    }

    /** `create_snipe_embed`, with the cached member lookup. */
    method CreateSnipeEmbed(guild: nat, m: Deleted, now: int, members: seq<Member>) returns (e: Embed, member: Option<Member>)
      requires Valid()
      modifies this
      ensures Valid()
      ensures dbReady == old(dbReady) && log == old(log) && nextId == old(nextId)
      ensures e == EmbedOf(m, now, member)
      ensures (member, memberCache, cacheExpiry)
              == CachedLookup(old(memberCache), old(cacheExpiry), CacheKey(guild, m.authorId), now, members, m.authorId, m.author)
    {
      member := GetMemberCached(guild, m.authorId, m.author, now, members);
      e := EmbedOf(m, now, member);
    }

    /** The timestamp loop of `snipe`. */
    method RecentRows(rows: seq<Deleted>, now: int) returns (valid: seq<Deleted>)
      ensures valid == Recent(rows, now)
    {
      valid := [];
      var i := 0;
      while i < |rows|
        invariant 0 <= i <= |rows|
        invariant valid == Filter(rows[..i], FreshAt(now))
      {
        FilterSnoc(rows[..i], rows[i], FreshAt(now));
        assert rows[..i + 1] == rows[..i] + [rows[i]];
        if now - rows[i].deletedAt <= MaxAge {
          valid := valid + [rows[i]];
        }
        i := i + 1;
      }
      assert rows[..i] == rows;
    }

    /**
     * `snipe`: refused while the database is not ready; otherwise the ten
     * latest rows of the channel, of which those at most seven days old
     * are shown from the first one.
     */
    method Snipe(guild: nat, channel: int, invoker: int, now: int, members: seq<Member>) returns (reply: SnipeReply, view: SnipeView?)
      requires Valid()
      modifies this
      ensures Valid()
      ensures dbReady == old(dbReady) && log == old(log) && nextId == old(nextId)
      ensures !dbReady ==> reply == NotReady && view == null
      ensures dbReady && Query(log, channel) == [] ==> reply == NoMessages && view == null
      ensures dbReady && Query(log, channel) != [] && Recent(Query(log, channel), now) == [] ==> reply == TooOld && view == null
      ensures dbReady && Recent(Query(log, channel), now) != [] ==>
                reply.Shown? && reply.rows == Recent(Query(log, channel), now)
                && reply.first == EmbedOf(reply.rows[0], now, reply.member)
                && view != null && fresh(view) && view.Valid() && view.ButtonsMatch()
                && view.invoker == invoker && view.messages == reply.rows && view.current == 0
      ensures !reply.Shown? ==> memberCache == old(memberCache) && cacheExpiry == old(cacheExpiry)
      ensures reply.Shown? ==>
                var first := reply.rows[0];
                (reply.member, memberCache, cacheExpiry)
                == CachedLookup(old(memberCache), old(cacheExpiry), CacheKey(guild, first.authorId), now, members, first.authorId, first.author)
    {
      view := null;
      if !dbReady {
        return NotReady, null;
      }
      var rows := Query(log, channel);
      if rows == [] {
        return NoMessages, null;
      }
      var valid := RecentRows(rows, now);
      if valid == [] {
        return TooOld, null;
      }
      var first, member := CreateSnipeEmbed(guild, valid[0], now, members);
      view := new SnipeView(invoker, valid);
      reply := Shown(valid, first, member);
    }
  }

  // ---------------------------------------------------------------------------
  // The paging view
  // ---------------------------------------------------------------------------

  datatype PageReply = NotYours | Stayed | Moved(page: nat)

  /** `SnipeView`: one deleted message per page, buttons only for the user who ran the command. */
  class SnipeView {
    const invoker: int
    const messages: seq<Deleted>
    var current: int
    var prevDisabled: bool
    var nextDisabled: bool

    predicate Valid()
      reads this
    {
      0 <= current < |messages|
    }

    /** `update_buttons`' rule: back is disabled on the first page, forward on the last. */
    predicate ButtonsMatch()
      reads this
    {
      prevDisabled == (current == 0) && nextDisabled == (current >= |messages| - 1)
    }

    /** The view is only opened on a non-empty list, on its first page. */
    constructor(invoker: int, messages: seq<Deleted>)
      requires |messages| > 0
      ensures Valid() && ButtonsMatch() && this.invoker == invoker && this.messages == messages && current == 0
    {
      this.invoker := invoker;
      this.messages := messages;
      current := 0;
      prevDisabled := true;
      nextDisabled := |messages| <= 1;
    }

    /** `previous_page`: another user is refused; the page moves back only when it is not the first. */
    method PreviousPage(user: int) returns (r: PageReply)
      requires Valid()
      modifies this
      ensures Valid()
      ensures user != invoker || old(current) == 0 ==>
                current == old(current) && prevDisabled == old(prevDisabled) && nextDisabled == old(nextDisabled)
      ensures user != invoker ==> r == NotYours
      ensures user == invoker && old(current) == 0 ==> r == Stayed
      ensures user == invoker && old(current) > 0 ==> current == old(current) - 1 && r == Moved(current) && ButtonsMatch()
    {
      if user != invoker {
        return NotYours;
      }
      if current > 0 {
        current := current - 1;
        prevDisabled := current == 0;
        nextDisabled := current >= |messages| - 1;
        return Moved(current);
      }
      return Stayed;
    }

    /** `next_page`: another user is refused; the page moves on only when it is not the last. */
    method NextPage(user: int) returns (r: PageReply)
      requires Valid()
      modifies this
      ensures Valid()
      ensures user != invoker || old(current) == |messages| - 1 ==>
                current == old(current) && prevDisabled == old(prevDisabled) && nextDisabled == old(nextDisabled)
      ensures user != invoker ==> r == NotYours
      ensures user == invoker && old(current) == |messages| - 1 ==> r == Stayed
      ensures user == invoker && old(current) < |messages| - 1 ==> current == old(current) + 1 && r == Moved(current) && ButtonsMatch()
    {
      if user != invoker {
        return NotYours;
      }
      if current < |messages| - 1 {
        current := current + 1;
        prevDisabled := current == 0;
        nextDisabled := current >= |messages| - 1;
        return Moved(current);
      }
      return Stayed;
    }

    /** The counter button's label. */
    function Counter(): string
      reads this
    {
      "Page " + IntToString(current + 1) + "/" + NatToString(|messages|)
    }
  }
}
