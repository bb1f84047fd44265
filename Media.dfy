/**
 * `cogs/media.py`: channels where only media may be posted. A per-channel
 * sliding-window limiter (3 calls per 10 seconds) guards the listener; a
 * message is deleted when the channel is listed, the bot may manage
 * messages, the limiter lets the call through and the message carries no
 * media. Configurations are cached for 60 seconds.
 *
 * Time is `time.monotonic()` in whole seconds, passed in as `now`.
 */
module Media {
  import opened Common

  const Calls := 3
  const Period := 10
  const CleanupAge := 3600
  const ConfigCacheSeconds := 60

  // ---------------------------------------------------------------------------
  // RateLimiter
  // ---------------------------------------------------------------------------

  /** `[t for t in times if now - t < period]`. */
  function Younger(times: seq<int>, now: int, period: int): (r: seq<int>)
    ensures |r| <= |times|
    ensures forall t :: t in r <==> t in times && now - t < period
  {
    if times == [] then []
    else
      var rest := Younger(times[1..], now, period);
      assert forall t :: t in times <==> t == times[0] || t in times[1..];
      if now - times[0] < period then [times[0]] + rest else rest
  }

  /** Pruning at a time and again at a later time is pruning at the later time. */
  lemma {:induction false} YoungerTwice(times: seq<int>, now1: int, now2: int, period: int)
    requires now1 <= now2
    ensures Younger(Younger(times, now1, period), now2, period) == Younger(times, now2, period)
  {
    if times != [] {
      YoungerTwice(times[1..], now1, now2, period);
      if now1 - times[0] < period {
        assert ([times[0]] + Younger(times[1..], now1, period))[1..] == Younger(times[1..], now1, period);
      }
    }
  }

  lemma {:induction false} YoungerSnoc(times: seq<int>, x: int, now: int, period: int)
    ensures Younger(times + [x], now, period) == Younger(times, now, period) + (if now - x < period then [x] else [])
  {
    if times == [] {
      assert [x][1..] == [];
    } else {
      assert (times + [x])[1..] == times[1..] + [x];
      YoungerSnoc(times[1..], x, now, period);
    }
  }

  /** The verdict of `can_proceed` and the channel's new list. */
  datatype Admission = Admission(ok: bool, times: seq<int>)

  /**
   * `can_proceed`: the list keeps the timestamps younger than `period`; the
   * call is allowed iff fewer than `calls` remain, and then it is recorded.
   */
  function Admit(times: seq<int>, now: int, calls: nat, period: int): (r: Admission)
    ensures r.ok <==> |Younger(times, now, period)| < calls
    ensures r.ok ==> now in r.times
    ensures forall t :: t in r.times && t != now ==> t in times && now - t < period
    ensures |times| <= calls ==> |r.times| <= calls
  {
    var kept := Younger(times, now, period);
    if |kept| < calls then Admission(true, kept + [now]) else Admission(false, kept)
  }

  predicate Nondecreasing(s: seq<int>)
  {
    forall i, j :: 0 <= i < j < |s| ==> s[i] <= s[j]
  }

  /** The limiter's list for a channel and the calls it allowed, after the channel's requests in order. */
  datatype Replayed = Replayed(list: seq<int>, allowed: seq<int>)

  function Replay(requests: seq<int>, calls: nat, period: int): (r: Replayed)
    ensures |r.allowed| <= |requests|
  {
    if requests == [] then Replayed([], [])
    else
      var prev := Replay(requests[..|requests| - 1], calls, period);
      var now := requests[|requests| - 1];
      var a := Admit(prev.list, now, calls, period);
      Replayed(a.times, prev.allowed + (if a.ok then [now] else []))
  }

  lemma NondecreasingPrefix(s: seq<int>, n: nat)
    requires Nondecreasing(s) && n <= |s|
    ensures Nondecreasing(s[..n])
  {
  }

  /**
   * With times that never go backwards, the limiter's list after a request
   * is exactly the allowed calls younger than `period`, so at most `calls`
   * calls are allowed in any window of `period` seconds ending at a request.
   */
  lemma {:induction false} AtMostCallsPerWindow(requests: seq<int>, calls: nat, period: int)
    requires period > 0 && requests != [] && Nondecreasing(requests)
    ensures var r := Replay(requests, calls, period);
            r.list == Younger(r.allowed, requests[|requests| - 1], period) && |r.list| <= calls
  {
    var n := |requests|;
    var now := requests[n - 1];
    var init := requests[..n - 1];
    var prev := Replay(init, calls, period);
    var a := Admit(prev.list, now, calls, period);
    var next := prev.allowed + (if a.ok then [now] else []);
    assert Replay(requests, calls, period) == Replayed(a.times, next);
    if n == 1 {
      assert init == [];
      assert prev == Replayed([], []);
      assert Younger([now], now, period) == [now];
    } else {
      NondecreasingPrefix(requests, n - 1);
      AtMostCallsPerWindow(init, calls, period);
      var before := init[|init| - 1];
      assert before == requests[n - 2] <= now;
      assert prev.list == Younger(prev.allowed, before, period);
      YoungerTwice(prev.allowed, before, now, period);
      assert Younger(prev.list, now, period) == Younger(prev.allowed, now, period);
      YoungerSnoc(prev.allowed, now, now, period);
      if a.ok {
        assert a.times == Younger(prev.list, now, period) + [now];
      } else {
        assert a.times == Younger(prev.list, now, period);
        assert next == prev.allowed;
      }
    }
  }

  /** `cleanup`: an empty list, or one whose last entry (floored at 0) is older than `max_age`. */
  predicate Stale(times: seq<int>, now: int, maxAge: int)
  {
    times == [] || now - Max(times[|times| - 1], 0) > maxAge
  }

  /**
   * Dropping a stale channel changes no later verdict when `max_age` is at
   * least `period`: its list would be pruned to nothing anyway.
   */
  lemma CleanupHarmless(times: seq<int>, now: int, later: int, maxAge: int, period: int)
    requires Nondecreasing(times) && maxAge >= period && now <= later && Stale(times, now, maxAge)
    ensures Younger(times, later, period) == []
  {
    if times != [] {
      forall i | 0 <= i < |times| ensures later - times[i] >= period {
        assert times[i] <= times[|times| - 1];
      }
      assert forall t :: t in times ==> later - t >= period;
    }
  }

  /** The loop of `cleanup` that collects the channels to delete. */
  method StaleChannels(m: map<int, seq<int>>, now: int, maxAge: int) returns (keys: set<int>)
    ensures keys == set c | c in m && Stale(m[c], now, maxAge)
  {
    keys := {};
    var todo := m.Keys;
    while todo != {}
      invariant todo <= m.Keys
      invariant keys == set c | c in m && c !in todo && Stale(m[c], now, maxAge)
      decreases |todo|
    {
      NonEmptyHasElement(todo);
      var ch :| ch in todo;
      if Stale(m[ch], now, maxAge) {
        keys := keys + {ch};
      }
      todo := todo - {ch};
    }
  }

  class RateLimiter {
    const calls: nat
    const period: int
    var timestamps: map<int, seq<int>>

    /** No channel's list is longer than `calls`. */
    predicate Bounded()
      reads this
    {
      forall ch :: ch in timestamps ==> |timestamps[ch]| <= calls
    }

    constructor(calls: nat, period: int)
      ensures this.calls == calls && this.period == period && timestamps == map[] && Bounded()
    {
      this.calls := calls;
      this.period := period;
      timestamps := map[];
    }

    function Times(ch: int): seq<int>
      reads this
    {
      if ch in timestamps then timestamps[ch] else []
    }

    method CanProceed(ch: int, now: int) returns (ok: bool)
      modifies this
      ensures var a := Admit(old(Times(ch)), now, calls, period);
              ok == a.ok && timestamps == old(timestamps)[ch := a.times]
      ensures old(Bounded()) ==> Bounded()
    {
      var a := Admit(Times(ch), now, calls, period);
      timestamps := timestamps[ch := a.times];
      ok := a.ok;
    }

    method Cleanup(now: int, maxAge: int)
      modifies this
      ensures timestamps == old(timestamps) - (set ch | ch in old(timestamps) && Stale(old(timestamps)[ch], now, maxAge))
      ensures forall ch :: ch in timestamps ==> !Stale(timestamps[ch], now, maxAge)
      ensures old(Bounded()) ==> Bounded()
    {
      var keys := StaleChannels(timestamps, now, maxAge);
      timestamps := timestamps - keys;
    }
  }

  // ---------------------------------------------------------------------------
  // _has_media
  // ---------------------------------------------------------------------------

  datatype Embed = Embed(kind: string, url: Option<string>, image: Option<string>, video: Option<string>)

  datatype Message = Message(attachments: nat, embeds: seq<Embed>, content: string)

  const MediaEmbedTypes: seq<string> := ["image", "video", "gifv"]
  const MediaExtensions: seq<string> :=
    [".png", ".jpg", ".jpeg", ".gif", ".mp4", ".mov", ".webm", ".mp3", ".wav", ".ogg"]

  predicate MediaSuffix(s: string)
  {
    exists i :: 0 <= i < |MediaExtensions| && EndsWith(s, MediaExtensions[i])
  }

  /** An optional URL that ends, ignoring case, in a media extension. */
  predicate MediaUrl(u: Option<string>)
  {
    u.Some? && MediaSuffix(Lower(u.value))
  }

  /** The per-embed tests: its type, then its own URL, image URL and video URL. */
  predicate EmbedHasMedia(e: Embed)
  {
    e.kind in MediaEmbedTypes || MediaUrl(e.url) || MediaUrl(e.image) || MediaUrl(e.video)
  }

  /** The index of the first character of `s` in `stop`, or `|s|`. */
  function CutAt(s: string, stop: set<char>): (r: nat)
    ensures r <= |s|
    ensures forall i :: 0 <= i < r ==> s[i] !in stop
    ensures r < |s| ==> s[r] in stop
  {
    if s == [] || s[0] in stop then 0 else 1 + CutAt(s[1..], stop)
  }

  /** `re.search(r'https?://\S+', token)` on a whitespace-free token: where its match starts, if anywhere. */
  function UrlStart(tok: string): (r: Option<nat>)
    ensures r.Some? ==> r.value < |tok|
    decreases |tok|
  {
    if StartsWith(tok, "http://") && |tok| > 7 then Some(0)
    else if StartsWith(tok, "https://") && |tok| > 8 then Some(0)
    else if tok == [] then None
    else
      var rest := UrlStart(tok[1..]);
      if rest.None? then None else Some(rest.value + 1)
  }

  /** The matches of `re.findall(r'https?://\S+', text)`: one per token that holds one, to the token's end. */
  function Urls(tokens: seq<string>): (r: seq<string>)
  {
    if tokens == [] then []
    else
      var s := UrlStart(tokens[0]);
      (if s.Some? then [tokens[0][s.value..]] else []) + Urls(tokens[1..])
  }

  /** The index of the last '/' of `s`, if any. */
  function LastSlash(s: string): (r: Option<nat>)
    ensures r.Some? ==> r.value < |s| && s[r.value] == '/' && forall i :: r.value < i < |s| ==> s[i] != '/'
    ensures r.None? ==> forall i :: 0 <= i < |s| ==> s[i] != '/'
  {
    if s == [] then None
    else if s[|s| - 1] == '/' then Some(|s| - 1)
    else LastSlash(s[..|s| - 1])
  }

  /**
   * `urlparse`'s `_splitparams` on an http(s) path: the `;params` part starts at
   * the first ';' after the last '/' (at the first ';' when there is no '/').
   */
  function StripParams(p: string): (r: string)
    ensures |r| <= |p| && r == p[..|r|]
    ensures |r| < |p| ==> p[|r|] == ';'
    ensures ';' !in p ==> r == p
  {
    var start := if LastSlash(p).Some? then LastSlash(p).value else 0;
    p[..start + CutAt(p[start..], {';'})]
  }

  /** No `;params` are left: every ';' comes before the last '/'. */
  predicate NoParams(p: string)
  {
    forall i :: 0 <= i < |p| && p[i] == ';' ==> LastSlash(p).Some? && i < LastSlash(p).value
  }

  /** What `_splitparams` keeps holds no `;params` of its own. */
  lemma StripParamsPlain(p: string)
    ensures NoParams(StripParams(p))
  {
    var r := StripParams(p);
    if LastSlash(p).Some? {
      var j := LastSlash(p).value;
      assert p[j..][0] == '/';
      assert j < |r|;
      assert r[j] == '/';
      assert LastSlash(r) == Some(j);
      assert forall i :: j <= i < |r| ==> r[i] == p[j..][i - j] != ';';
    }
  }

  /**
   * What `urlparse(url).path` does to an http(s) URL: the text after "scheme://netloc"
   * up to '?' or '#', without its `;params`; an unbalanced bracket in the netloc raises.
   */
  datatype ParsedPath = PathOk(path: string) | InvalidIPv6

  function UrlPath(url: string): (r: ParsedPath)
    ensures r.PathOk? ==> forall i :: 0 <= i < |r.path| ==> r.path[i] != '?' && r.path[i] != '#'
    ensures r.PathOk? ==> NoParams(r.path)
  {
    NetlocPath(AfterScheme(url))
  }

  /** The text after "scheme://". */
  function AfterScheme(url: string): string
  {
    var k := CutAt(url, {':'});
    if k + 3 <= |url| then url[k + 3..] else []
  }

  /** The netloc runs up to the first '/', '?' or '#'; the path follows it. */
  function NetlocPath(rest: string): (r: ParsedPath)
    ensures r.PathOk? ==> forall i :: 0 <= i < |r.path| ==> r.path[i] != '?' && r.path[i] != '#'
    ensures r.PathOk? ==> NoParams(r.path)
  {
    var hostEnd := CutAt(rest, {'/', '?', '#'});
    var netloc := rest[..hostEnd];
    var tail := rest[hostEnd..];
    if ('[' in netloc) != (']' in netloc) then InvalidIPv6
    else
      var path := tail[..CutAt(tail, {'?', '#'})];
      StripParamsPlain(path);
      PathOk(StripParams(path))
  }

  datatype MediaCheck = HasMedia | NoMedia | Raised

  /** The content-URL scan: the first URL whose path is media answers, an unparsable one raises. */
  function ScanUrls(urls: seq<string>): (r: MediaCheck)
  {
    if urls == [] then NoMedia
    else
      var p := UrlPath(urls[0]);
      if p.InvalidIPv6? then Raised
      else if MediaSuffix(p.path) then HasMedia
      else ScanUrls(urls[1..])
  }

  /** `_has_media`, in the order of its tests; `Raised` when `urlparse` raises. */
  function CheckMedia(m: Message): (r: MediaCheck)
    ensures m.attachments > 0 ==> r == HasMedia
    ensures (exists i :: 0 <= i < |m.embeds| && EmbedHasMedia(m.embeds[i])) ==> r == HasMedia
    ensures r != HasMedia ==> m.attachments == 0 && forall i :: 0 <= i < |m.embeds| ==> !EmbedHasMedia(m.embeds[i])
  {
    if m.attachments > 0 then HasMedia
    else if exists i :: 0 <= i < |m.embeds| && EmbedHasMedia(m.embeds[i]) then HasMedia
    else ScanUrls(Urls(SplitWords(Lower(m.content))))
  }

  /** Skipping a prefix free of stop characters. */
  lemma {:induction false} CutAtAppend(a: string, b: string, stop: set<char>)
    requires forall i :: 0 <= i < |a| ==> a[i] !in stop
    ensures CutAt(a + b, stop) == |a| + CutAt(b, stop)
  {
    if a != [] {
      assert (a + b)[1..] == a[1..] + b;
      CutAtAppend(a[1..], b, stop);
    } else {
      assert a + b == b;
    }
  }

  lemma SchemeSplit(scheme: string, rest: string)
    requires forall i :: 0 <= i < |scheme| ==> scheme[i] != ':'
    ensures AfterScheme(scheme + "://" + rest) == rest
  {
    var url := scheme + "://" + rest;
    assert url == scheme + (":" + "//" + rest);
    CutAtAppend(scheme, ":" + "//" + rest, {':'});
  }

  lemma CutSplit(a: string, b: string, stop: set<char>)
    requires forall i :: 0 <= i < |a| ==> a[i] !in stop
    requires b == [] || b[0] in stop
    ensures CutAt(a + b, stop) == |a| && (a + b)[..|a|] == a && (a + b)[|a|..] == b
  {
    CutAtAppend(a, b, stop);
  }

  /** A URL cut into scheme, netloc and the rest: the path is that rest up to '?' or '#', without its `;params`. */
  lemma UrlSplit(scheme: string, host: string, t: string)
    requires forall i :: 0 <= i < |scheme| ==> scheme[i] != ':'
    requires forall i :: 0 <= i < |host| ==> host[i] !in {'/', '?', '#', '[', ']'}
    requires t == [] || t[0] in {'/', '?', '#'}
    ensures UrlPath(scheme + "://" + host + t) == PathOk(StripParams(t[..CutAt(t, {'?', '#'})]))
  {
    SchemeSplit(scheme, host + t);
    SeqAssoc(scheme + "://", host, t);
    HostSplit(host, t);
  }

  /** A bracket-free netloc is followed by the path. */
  lemma HostSplit(host: string, t: string)
    requires forall i :: 0 <= i < |host| ==> host[i] !in {'/', '?', '#', '[', ']'}
    requires t == [] || t[0] in {'/', '?', '#'}
    ensures NetlocPath(host + t) == PathOk(StripParams(t[..CutAt(t, {'?', '#'})]))
  {
    CutSplit(host, t, {'/', '?', '#'});
    assert '[' !in host && ']' !in host;
  }

  /** The content URL's query string and fragment do not count: only its path is checked (for any scheme, http and https among them). */
  lemma QueryIgnored(scheme: string, host: string, path: string, tail: string)
    requires forall i :: 0 <= i < |scheme| ==> scheme[i] != ':'
    requires forall i :: 0 <= i < |host| ==> host[i] !in {'/', '?', '#', '[', ']'}
    requires path != [] && path[0] == '/' && forall i :: 0 <= i < |path| ==> path[i] !in {'?', '#'}
    requires ';' !in path
    requires tail == [] || tail[0] in {'?', '#'}
    ensures UrlPath(scheme + "://" + host + path + tail) == PathOk(path)
  {
    CutSplit(path, tail, {'?', '#'});
    var u := scheme + "://" + host;
    SeqAssoc(u, path, tail);
    UrlSplit(scheme, host, path + tail);
    assert UrlPath(u + (path + tail)) == PathOk(path);
  }

  /** A '/'-free text after a plain `b` leaves the last '/' where it was in `a`. */
  lemma {:induction false} LastSlashAppend(a: string, b: string)
    requires forall i :: 0 <= i < |b| ==> b[i] != '/'
    ensures LastSlash(a + b) == LastSlash(a)
    decreases |b|
  {
    if b == [] {
      assert a + b == a;
    } else {
      var c := a + b;
      assert c[..|c| - 1] == a + b[..|b| - 1];
      LastSlashAppend(a, b[..|b| - 1]);
    }
  }

  /** `;params` after the last '/' of a ';'-free path are cut off. */
  lemma StripParamsCut(path: string, params: string)
    requires '/' in path && ';' !in path
    requires forall i :: 0 <= i < |params| ==> params[i] != '/'
    ensures StripParams(path + (";" + params)) == path
  {
    var p := path + (";" + params);
    LastSlashAppend(path, ";" + params);
    var j := LastSlash(path).value;
    assert p[j..] == path[j..] + (";" + params);
    assert forall i :: 0 <= i < |path[j..]| ==> path[j..][i] != ';';
    CutSplit(path[j..], ";" + params, {';'});
  }

  /** The `;params` of an http(s) URL's last path segment do not count either. */
  lemma ParamsIgnored(scheme: string, host: string, path: string, params: string, tail: string)
    requires forall i :: 0 <= i < |scheme| ==> scheme[i] != ':'
    requires forall i :: 0 <= i < |host| ==> host[i] !in {'/', '?', '#', '[', ']'}
    requires path != [] && path[0] == '/' && forall i :: 0 <= i < |path| ==> path[i] !in {'?', '#'}
    requires ';' !in path
    requires forall i :: 0 <= i < |params| ==> params[i] !in {'/', '?', '#'}
    requires tail == [] || tail[0] in {'?', '#'}
    ensures UrlPath(scheme + "://" + host + path + ";" + params + tail) == PathOk(path)
  {
    var u := scheme + "://" + host;
    var q := ";" + params;
    var p := path + q;
    assert u + (p + tail) == scheme + "://" + host + path + ";" + params + tail by {
      SeqAssoc(u + path, ";", params);
      SeqAssoc(u, path, q);
      SeqAssoc(u, p, tail);
    }
    NotInAppend(";", params, {'?', '#'});
    NotInAppend(path, q, {'?', '#'});
    CutSplit(p, tail, {'?', '#'});
    UrlSplit(scheme, host, p + tail);
    StripParamsCut(path, params);
    assert UrlPath(u + (p + tail)) == PathOk(path);
  }

  lemma NotInAppend(a: string, b: string, stop: set<char>)
    requires forall i :: 0 <= i < |a| ==> a[i] !in stop
    requires forall i :: 0 <= i < |b| ==> b[i] !in stop
    ensures forall i :: 0 <= i < |a + b| ==> (a + b)[i] !in stop
  {
  }

  /** Whether "http" starts at position `i`. */
  predicate HttpAt(tok: string, i: int)
  {
    0 <= i && i + 4 <= |tok| && tok[i..i + 4] == "http"
  }

  /** A token without "http" in it holds no URL. */
  lemma {:induction false} NoHttpNoUrl(tok: string)
    requires forall i :: !HttpAt(tok, i)
    ensures UrlStart(tok).None?
    decreases |tok|
  {
    if StartsWith(tok, "http://") || StartsWith(tok, "https://") {
      assert tok[0..4] == "http";
      assert HttpAt(tok, 0);
    }
    if tok != [] {
      forall i ensures !HttpAt(tok[1..], i) {
        if HttpAt(tok[1..], i) {
          assert tok[1..][i..i + 4] == tok[i + 1..i + 5];
          assert HttpAt(tok, i + 1);
        }
      }
      NoHttpNoUrl(tok[1..]);
    }
  }

  // ---------------------------------------------------------------------------
  // The cog
  // ---------------------------------------------------------------------------

  /** A `configs` document; a missing one reads as no channels and no log channel. */
  datatype MediaConfig = MediaConfig(channels: seq<int>, logChannel: Option<int>)

  const NoConfig := MediaConfig([], None)

  /** `$pull`: every occurrence of the channel removed. */
  function Pulled(c: MediaConfig, ch: int): (r: MediaConfig)
    ensures ch !in r.channels
    ensures forall x :: x != ch ==> (x in r.channels <==> x in c.channels)
    ensures r.logChannel == c.logChannel
  {
    c.(channels := Filter(c.channels, x => x != ch))
  }

  /** `$addToSet`: the channel appended unless present. */
  function AddedToSet(c: MediaConfig, ch: int): (r: MediaConfig)
    ensures ch in r.channels
    ensures forall x :: x != ch ==> (x in r.channels <==> x in c.channels)
    ensures ch in c.channels ==> r == c
    ensures r.logChannel == c.logChannel
  {
    if ch in c.channels then c else c.(channels := c.channels + [ch])
  }

  /** Toggling a channel twice from the same stored document restores its membership. */
  lemma ToggleTwice(c: MediaConfig, ch: int)
    ensures ch in c.channels ==> ch in AddedToSet(Pulled(c, ch), ch).channels
    ensures ch !in c.channels ==> ch !in Pulled(AddedToSet(c, ch), ch).channels
    ensures forall x :: x != ch ==> (x in AddedToSet(Pulled(c, ch), ch).channels <==> x in c.channels)
  {
  }

  datatype Action = Toggle | SetLog | View

  /** `action.lower()` against the three actions. */
  function ParseAction(action: string): (r: Option<Action>)
    ensures r == Some(Toggle) <==> Lower(action) == "toggle"
    ensures r == Some(SetLog) <==> Lower(action) == "log"
    ensures r == Some(View) <==> Lower(action) == "view"
  {
    var a := Lower(action);
    if a == "toggle" then Some(Toggle) else if a == "log" then Some(SetLog)
    else if a == "view" then Some(View) else None
  }

  datatype CommandReply =
    | InvalidAction | NotAdministrator | DatabaseNotReady | NeedChannel
    | Disabled(ch: int) | Enabled(ch: int) | LogSet(ch: int) | LogCleared | Viewed(config: MediaConfig)

  datatype Verdict = Ignored | KeptMedia | Deleted

  class MediaCog {
    const limiter: RateLimiter
    /** The `configs` collection. */
    var db: map<int, MediaConfig>
    /** `_cache`: the configuration and when it was read. */
    var cache: map<int, (MediaConfig, int)>
    /** Whether `config_collection` is set yet. */
    var dbReady: bool

    constructor(stored: map<int, MediaConfig>)
      ensures db == stored && cache == map[] && !dbReady && fresh(limiter)
      ensures limiter.calls == Calls && limiter.period == Period && limiter.timestamps == map[]
    {
      limiter := new RateLimiter(Calls, Period);
      db := stored;
      cache := map[];
      dbReady := false;
    }

    function Stored(g: int): MediaConfig
      reads this
    {
      if g in db then db[g] else NoConfig
    }

    /** What `_get_config` returns at `now`. */
    function ConfigAt(g: int, now: int): MediaConfig
      reads this
    {
      if g in cache && now - cache[g].1 < ConfigCacheSeconds then cache[g].0
      else if dbReady then Stored(g)
      else NoConfig
    }

    /**
     * The cache after `_get_config` at `now`: a read of the stored document
     * is cached with the time, so once the database is ready the entry holds
     * what the read returned and is fresh; other servers' entries are
     * untouched, and nothing is cached before the database is ready.
     */
    function CacheAfterRead(g: int, now: int): (c: map<int, (MediaConfig, int)>)
      reads this
      ensures forall k :: k != g ==> (k in c <==> k in cache) && (k in c ==> c[k] == cache[k])
      ensures dbReady ==> g in c && c[g].0 == ConfigAt(g, now) && now - c[g].1 < ConfigCacheSeconds
      ensures !dbReady ==> c == cache
    {
      if (g in cache && now - cache[g].1 < ConfigCacheSeconds) || !dbReady then cache
      else cache[g := (Stored(g), now)]
    }

    /** `_get_config`: a fresh cache entry, else the stored document (cached), else nothing before the database is ready. */
    method GetConfig(g: int, now: int) returns (c: MediaConfig)
      modifies this
      ensures c == old(ConfigAt(g, now))
      ensures db == old(db) && dbReady == old(dbReady)
      ensures cache == if old(g in cache && now - cache[g].1 < ConfigCacheSeconds) || !dbReady then old(cache)
                       else old(cache)[g := (c, now)]
      ensures cache == old(CacheAfterRead(g, now))
    {
      if g in cache && now - cache[g].1 < ConfigCacheSeconds {
        return cache[g].0;
      }
      if !dbReady {
        return NoConfig;
      }
      c := Stored(g);
      cache := cache[g := (c, now)];
    }

    /**
     * The toggle action: decided on the configuration just read (possibly a
     * cached copy), written with `$pull` or `$addToSet`, then re-read into
     * the cache.
     */
    method ToggleChannel(g: int, ch: int, c: MediaConfig, now: int) returns (reply: CommandReply)
      modifies this
      ensures dbReady == old(dbReady) && cache == old(cache)[g := (Stored(g), now)]
      ensures ch in c.channels ==> reply == Disabled(ch) && db == old(db)[g := Pulled(old(Stored(g)), ch)]
      ensures ch !in c.channels ==> reply == Enabled(ch) && db == old(db)[g := AddedToSet(old(Stored(g)), ch)]
    {
      if ch in c.channels {
        db := db[g := Pulled(Stored(g), ch)];
        reply := Disabled(ch);
      } else {
        db := db[g := AddedToSet(Stored(g), ch)];
        reply := Enabled(ch);
      }
      cache := cache[g := (db[g], now)];
    }

    /** The log action: `$set` a given channel or `$unset` the field, then re-read into the cache. */
    method SetLogChannel(g: int, channel: Option<int>, now: int) returns (reply: CommandReply)
      modifies this
      ensures dbReady == old(dbReady) && cache == old(cache)[g := (Stored(g), now)]
      ensures db == old(db)[g := old(Stored(g)).(logChannel := channel)]
      ensures reply == if channel.Some? then LogSet(channel.value) else LogCleared
    {
      db := db[g := Stored(g).(logChannel := channel)];
      reply := if channel.Some? then LogSet(channel.value) else LogCleared;
      cache := cache[g := (db[g], now)];
    }

    /** `/media-only`: the action is checked first, then the caller, then the database. */
    method MediaOnlyCommand(g: int, action: string, admin: bool, channel: Option<int>, now: int)
      returns (reply: CommandReply)
      modifies this
      ensures dbReady == old(dbReady)
      ensures ParseAction(action).None? ==> reply == InvalidAction
      ensures ParseAction(action).Some? && !admin ==> reply == NotAdministrator
      ensures ParseAction(action).Some? && admin && !dbReady ==> reply == DatabaseNotReady
      ensures !(reply.Disabled? || reply.Enabled? || reply.LogSet? || reply == LogCleared) ==> db == old(db)
      ensures var c := old(ConfigAt(g, now));
              && (reply.Disabled? ==> channel.Some? && reply.ch == channel.value && channel.value in c.channels
                                      && db == old(db)[g := Pulled(old(Stored(g)), channel.value)])
              && (reply.Enabled? ==> channel.Some? && reply.ch == channel.value && channel.value !in c.channels
                                     && db == old(db)[g := AddedToSet(old(Stored(g)), channel.value)])
      ensures reply.LogSet? ==> db == old(db)[g := old(Stored(g)).(logChannel := Some(reply.ch))]
      ensures reply == LogCleared ==> db == old(db)[g := old(Stored(g)).(logChannel := None)]
      ensures reply.Disabled? || reply.Enabled? || reply.LogSet? || reply == LogCleared ==> cache == old(cache)[g := (Stored(g), now)]
      ensures ParseAction(action) == Some(Toggle) && admin && dbReady ==>
                (reply.Disabled? || reply.Enabled? <==> channel.Some?)
      ensures ParseAction(action) == Some(Toggle) && admin && dbReady && channel.None? ==> reply == NeedChannel
      ensures ParseAction(action) == Some(View) && admin && dbReady ==> reply == Viewed(old(ConfigAt(g, now)))
      ensures reply == InvalidAction || reply == NotAdministrator || reply == DatabaseNotReady ==> cache == old(cache)
      ensures reply.Viewed? || reply == NeedChannel ==> cache == old(CacheAfterRead(g, now))
    {
      var a := ParseAction(action);
      if a.None? {
        return InvalidAction;
      }
      if !admin {
        return NotAdministrator;
      }
      if !dbReady {
        return DatabaseNotReady;
      }
      var c := GetConfig(g, now);
      match a.value {
        case Toggle =>
          if channel.None? {
            return NeedChannel;
          }
          reply := ToggleChannel(g, channel.value, c, now);
        case SetLog =>
          reply := SetLogChannel(g, channel, now);
        case View =>
          return Viewed(c);
      }
    }

    /**
     * `on_message`: bots, direct messages, an unready database, unlisted
     * channels and a missing Manage Messages permission are ignored; then
     * the limiter is consulted, so media messages consume slots too; a
     * message with media stays and one without is deleted.
     */
    method OnMessage(g: int, ch: int, authorBot: bool, inGuild: bool, canManage: bool, m: Message, now: int)
      returns (v: Verdict)
      modifies this, limiter
      ensures db == old(db) && dbReady == old(dbReady)
      ensures var listed := !authorBot && inGuild && dbReady && ch in old(ConfigAt(g, now)).channels && canManage;
              var a := Admit(old(limiter.Times(ch)), now, limiter.calls, limiter.period);
              && (v == Deleted <==> listed && a.ok && CheckMedia(m) == NoMedia)
              && (v == KeptMedia <==> listed && a.ok && CheckMedia(m) == HasMedia)
              && limiter.timestamps == (if listed then old(limiter.timestamps)[ch := a.times] else old(limiter.timestamps))
      ensures cache == if authorBot || !inGuild then old(cache) else old(CacheAfterRead(g, now))
    {
      if authorBot || !inGuild || !dbReady {
        return Ignored;
      }
      var c := GetConfig(g, now);
      if ch !in c.channels || !canManage {
        return Ignored;
      }
      var ok := limiter.CanProceed(ch, now);
      if !ok {
        return Ignored;
      }
      var check := CheckMedia(m);
      v := if check == HasMedia then KeptMedia else if check == NoMedia then Deleted else Ignored;
    }
  }
}
