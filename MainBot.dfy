/**
 * `main.py`: the bot itself. Every prefix command goes through a duplicate
 * filter keyed by channel, message and command; cogs are found by walking
 * the `cogs` directory; slash commands are synced with a retry loop.
 *
 * Time is whole seconds; the directory walk, the outcome of each sync
 * attempt and discord.py's own per-user cooldown are passed in.
 */
module MainBot {
  import opened Common

  const TrackerWindow := 300
  const MaxRetries := 3
  const MaxBackoff := 60
  const CogsDir := "cogs"

  // ---------------------------------------------------------------------------
  // Duplicate responses
  // ---------------------------------------------------------------------------

  /** `f"{channel}:{message}:{command}"`. */
  function ResponseId(channel: nat, message: nat, command: string): string
  {
    NatToString(channel) + ":" + NatToString(message) + ":" + command
  }

  lemma ColonAt(d: string, r: string)
    ensures (d + ":" + r)[|d|] == ':'
    ensures forall k :: 0 <= k < |d| ==> (d + ":" + r)[k] == d[k]
  {
  }

  lemma DigitsBeforeColon(d1: string, r1: string, d2: string, r2: string)
    requires AllDigits(d1) && AllDigits(d2)
    requires d1 + ":" + r1 == d2 + ":" + r2
    ensures d1 == d2 && r1 == r2
  {
    var s := d1 + ":" + r1;
    ColonAt(d1, r1);
    ColonAt(d2, r2);
    if |d1| == |d2| {
      assert d1 == s[..|d1|] == d2;
      assert r1 == s[|d1| + 1..] == r2;
    }
  }

  /** Different commands, messages or channels never share a key. */
  lemma ResponseIdInjective(c1: nat, m1: nat, k1: string, c2: nat, m2: nat, k2: string)
    requires ResponseId(c1, m1, k1) == ResponseId(c2, m2, k2)
    ensures c1 == c2 && m1 == m2 && k1 == k2
  {
    var d1, d2 := NatToString(c1), NatToString(c2);
    var e1, e2 := NatToString(m1), NatToString(m2);
    assert d1 + ":" + (e1 + ":" + k1) == ResponseId(c1, m1, k1);
    assert d2 + ":" + (e2 + ":" + k2) == ResponseId(c2, m2, k2);
    DigitsBeforeColon(d1, e1 + ":" + k1, d2, e2 + ":" + k2);
    DigitsBeforeColon(e1, k1, e2, k2);
    NatToStringRoundTrip(c1);
    NatToStringRoundTrip(c2);
    NatToStringRoundTrip(m1);
    NatToStringRoundTrip(m2);
  }

  /** The tracker after one check, and whether the command may run. */
  datatype Tracked = Tracked(ok: bool, tracker: set<string>, cleanedAt: int)

  /**
   * `_should_respond` on a key: the whole tracker is emptied once more than
   * 300 s have passed since it was last emptied; a key already tracked is
   * refused, any other is tracked and allowed.
   */
  function Track(tracker: set<string>, cleanedAt: int, key: string, now: int): (r: Tracked)
    ensures key in r.tracker && r.tracker <= tracker + {key}
    ensures r.ok <==> key !in tracker || now - cleanedAt > TrackerWindow
    ensures now - cleanedAt > TrackerWindow ==> r.tracker == {key} && r.cleanedAt == now
    ensures now - cleanedAt <= TrackerWindow ==> r.tracker == tracker + {key} && r.cleanedAt == cleanedAt
  {
    var base := if now - cleanedAt > TrackerWindow then {} else tracker;
    Tracked(key !in base, base + {key}, if now - cleanedAt > TrackerWindow then now else cleanedAt)
  }

  /** Within the window, the same command on the same message runs once. */
  lemma SecondCallRefused(tracker: set<string>, cleanedAt: int, key: string, now: int, later: int)
    requires later - Track(tracker, cleanedAt, key, now).cleanedAt <= TrackerWindow
    ensures !Track(Track(tracker, cleanedAt, key, now).tracker, Track(tracker, cleanedAt, key, now).cleanedAt, key, later).ok
  {
  }

  /** Once the window has passed, even a repeated key runs again. */
  lemma RepeatAfterWindow(tracker: set<string>, cleanedAt: int, key: string, now: int)
    requires key in tracker && now - cleanedAt > TrackerWindow
    ensures Track(tracker, cleanedAt, key, now).ok
  {
  }

  // ---------------------------------------------------------------------------
  // Cog modules
  // ---------------------------------------------------------------------------

  /** One directory of the walk: its path relative to `cogs` (`.` for `cogs` itself) and its files. */
  datatype Dir = Dir(rel: string, files: seq<string>)

  predicate IsCogFile(f: string)
  {
    EndsWith(f, ".py") && f != "config.py" && f != "__init__.py"
  }

  /** `filename[:-3]`. */
  function Stem(f: string): string
    requires EndsWith(f, ".py")
  {
    f[..|f| - 3]
  }

  /** The dotted module for a file: `cogs.<stem>`, or `cogs.<rel with / as .>.<stem>`. */
  function ModulePath(rel: string, f: string): (r: string)
    requires EndsWith(f, ".py")
    ensures StartsWith(r, CogsDir + ".") && EndsWith(r, "." + Stem(f))
  {
    var r := if rel == "." then CogsDir + "." + Stem(f) else CogsDir + "." + Replace(rel, "/", ".") + "." + Stem(f);
    assert r[..|CogsDir + "."|] == CogsDir + ".";
    assert r[|r| - |"." + Stem(f)|..] == "." + Stem(f);
    r
  }

  /** Replacing every `c` leaves none. */
  lemma {:induction false} ReplaceCharRemoves(s: string, c: char, d: char)
    requires c != d
    ensures c !in Replace(s, [c], [d])
    decreases |s|
  {
    if |s| >= 1 {
      ReplaceCharRemoves(s[1..], c, d);
    }
  }

  /** A sub-directory's separators never reach the module name. */
  lemma ModuleHasNoSlash(rel: string, f: string)
    requires EndsWith(f, ".py") && '/' !in f
    ensures '/' !in ModulePath(rel, f)
  {
    ReplaceCharRemoves(rel, '/', '.');
    if rel != "." {
      var r := CogsDir + "." + Replace(rel, "/", ".") + "." + Stem(f);
      assert forall i :: 0 <= i < |Stem(f)| ==> Stem(f)[i] == f[i];
      assert '/' !in Stem(f);
    } else {
      assert forall i :: 0 <= i < |Stem(f)| ==> Stem(f)[i] == f[i];
    }
  }

  lemma TopLevelModule()
    ensures ModulePath(".", "ban.py") == "cogs.ban"
  {
    assert Stem("ban.py") == "ban";
  }

  /** A one-level sub-folder is the middle of the dotted name. */
  lemma SubfolderModule(rel: string, f: string)
    requires rel != "." && '/' !in rel && EndsWith(f, ".py")
    ensures ModulePath(rel, f) == CogsDir + "." + rel + "." + Stem(f)
  {
    ReplaceAbsentChar(rel);
  }

  lemma ReplaceAbsentChar(s: string)
    requires '/' !in s
    ensures Replace(s, "/", ".") == s
  {
    assert NoChar(s, '/');
    NoCharNoOccurrence(s, "/");
    ReplaceAbsent(s, "/", ".");
  }

  /** The modules of one directory's files, in order. */
  function DirModules(rel: string, files: seq<string>): seq<string>
  {
    if files == [] then []
    else DirModules(rel, files[..|files| - 1])
         + (if IsCogFile(files[|files| - 1]) then [ModulePath(rel, files[|files| - 1])] else [])
  }

  /** The modules of the whole walk, in order. */
  function Modules(walk: seq<Dir>): seq<string>
  {
    if walk == [] then [] else Modules(walk[..|walk| - 1]) + DirModules(walk[|walk| - 1].rel, walk[|walk| - 1].files)
  }

  /** Every cog file, in every directory, is loaded. */
  lemma {:induction false} DirModulesComplete(rel: string, files: seq<string>, j: nat)
    requires j < |files| && IsCogFile(files[j])
    ensures ModulePath(rel, files[j]) in DirModules(rel, files)
    decreases |files|
  {
    if j < |files| - 1 {
      DirModulesComplete(rel, files[..|files| - 1], j);
    }
  }

  /** Nothing but cog files is loaded. */
  lemma {:induction false} DirModulesSound(rel: string, files: seq<string>, m: string)
    requires m in DirModules(rel, files)
    ensures exists j :: 0 <= j < |files| && IsCogFile(files[j]) && m == ModulePath(rel, files[j])
    decreases |files|
  {
    var front := files[..|files| - 1];
    if m in DirModules(rel, front) {
      DirModulesSound(rel, front, m);
      var j :| 0 <= j < |front| && IsCogFile(front[j]) && m == ModulePath(rel, front[j]);
      assert files[j] == front[j];
    }
  }

  lemma {:induction false} ModulesComplete(walk: seq<Dir>, i: nat, j: nat)
    requires i < |walk| && j < |walk[i].files| && IsCogFile(walk[i].files[j])
    ensures ModulePath(walk[i].rel, walk[i].files[j]) in Modules(walk)
    decreases |walk|
  {
    if i < |walk| - 1 {
      ModulesComplete(walk[..|walk| - 1], i, j);
    } else {
      DirModulesComplete(walk[i].rel, walk[i].files, j);
    }
  }

  /** `config.py` and `__init__.py` are skipped in every directory, as is every file that is not `.py`. */
  lemma {:induction false} ModulesSound(walk: seq<Dir>, m: string)
    requires m in Modules(walk)
    ensures exists i, j :: 0 <= i < |walk| && 0 <= j < |walk[i].files| && IsCogFile(walk[i].files[j])
                           && m == ModulePath(walk[i].rel, walk[i].files[j])
    decreases |walk|
  {
    var front := walk[..|walk| - 1];
    var last := |walk| - 1;
    if m in Modules(front) {
      ModulesSound(front, m);
      var i, j :| 0 <= i < |front| && 0 <= j < |front[i].files| && IsCogFile(front[i].files[j])
                  && m == ModulePath(front[i].rel, front[i].files[j]);
      assert walk[i] == front[i];
    } else {
      DirModulesSound(walk[last].rel, walk[last].files, m);
    }
  }

  lemma DirModulesSnoc(rel: string, files: seq<string>, j: nat)
    requires j < |files|
    ensures DirModules(rel, files[..j + 1])
            == DirModules(rel, files[..j]) + (if IsCogFile(files[j]) then [ModulePath(rel, files[j])] else [])
  {
    assert files[..j + 1][..j] == files[..j];
  }

  lemma ModulesSnoc(walk: seq<Dir>, i: nat)
    requires i < |walk|
    ensures Modules(walk[..i + 1]) == Modules(walk[..i]) + DirModules(walk[i].rel, walk[i].files[..|walk[i].files|])
  {
    assert walk[..i + 1][..i] == walk[..i];
    assert walk[i].files[..|walk[i].files|] == walk[i].files;
  }

  /** `load_cogs`: the modules `load_extension` is called on, in the order of the walk. */
  method LoadCogs(isDir: bool, walk: seq<Dir>) returns (modules: seq<string>)
    ensures modules == (if isDir then Modules(walk) else [])
  {
    modules := [];
    if !isDir {
      return;
    }
    var i := 0;
    while i < |walk|
      invariant i <= |walk|
      invariant modules == Modules(walk[..i])
    {
      var rel := walk[i].rel;
      var files := walk[i].files;
      var j := 0;
      ghost var before := modules;
      while j < |files|
        invariant j <= |files|
        invariant modules == before + DirModules(rel, files[..j])
      {
        var f := files[j];
        if IsCogFile(f) {
          modules := modules + [ModulePath(rel, f)];
        }
        DirModulesSnoc(rel, files, j);
        j := j + 1;
      }
      ModulesSnoc(walk, i);
      i := i + 1;
    }
    assert walk[..i] == walk;
  }

  // ---------------------------------------------------------------------------
  // Slash-command sync
  // ---------------------------------------------------------------------------

  /** What one `tree.sync()` did. */
  datatype Attempt = Synced | RateLimited | Failed

  /** How the loop ended; `Unknown` when the given attempts ran out first. */
  datatype SyncEnd = SyncedOk | GaveUp | Unknown

  datatype SyncRun = SyncRun(end: SyncEnd, sleeps: seq<nat>, used: nat)

  /**
   * The loop from attempt `i` on: a 429 waits `backoff` and doubles it up to
   * 60 without counting; another error counts, gives up at the third, and
   * otherwise waits `backoff` unchanged.
   */
  function SyncFrom(results: seq<Attempt>, i: nat, backoff: nat, retries: nat, sleeps: seq<nat>): (r: SyncRun)
    requires i <= |results|
    ensures i <= r.used <= |results|
    ensures |sleeps| <= |r.sleeps|
    decreases |results| - i
  {
    if retries >= MaxRetries then SyncRun(GaveUp, sleeps, i)
    else if i == |results| then SyncRun(Unknown, sleeps, i)
    else match results[i]
      case Synced => SyncRun(SyncedOk, sleeps, i + 1)
      case RateLimited => SyncFrom(results, i + 1, Min(backoff * 2, MaxBackoff), retries, sleeps + [backoff])
      case Failed =>
        if retries + 1 >= MaxRetries then SyncRun(GaveUp, sleeps, i + 1)
        else SyncFrom(results, i + 1, backoff, retries + 1, sleeps + [backoff])
  }

  /** The number of failures other than 429 among the attempts. */
  function Failures(results: seq<Attempt>): nat
  {
    if results == [] then 0 else Failures(results[..|results| - 1]) + (if results[|results| - 1] == Failed then 1 else 0)
  }

  lemma FailuresSnoc(results: seq<Attempt>, a: Attempt)
    ensures Failures(results + [a]) == Failures(results) + (if a == Failed then 1 else 0)
  {
    assert (results + [a])[..|results|] == results;
  }

  /**
   * Every wait is between 1 and 60 seconds, the loop gives up exactly at the
   * third counted failure, and a sync ends it while fewer than three have
   * been counted.
   */
  lemma SyncFacts(results: seq<Attempt>, i: nat, backoff: nat, retries: nat, sleeps: seq<nat>)
    requires i <= |results| && 1 <= backoff <= MaxBackoff && retries < MaxRetries
    requires retries == Failures(results[..i])
    requires forall k :: 0 <= k < |sleeps| ==> 1 <= sleeps[k] <= MaxBackoff
    ensures var r := SyncFrom(results, i, backoff, retries, sleeps);
            && (forall k :: 0 <= k < |r.sleeps| ==> 1 <= r.sleeps[k] <= MaxBackoff)
            && (r.end == GaveUp ==> Failures(results[..r.used]) == MaxRetries && results[r.used - 1] == Failed)
            && (r.end == SyncedOk ==> Failures(results[..r.used]) < MaxRetries && results[r.used - 1] == Synced)
            && (r.end == Unknown ==> r.used == |results| && Failures(results) < MaxRetries)
  {
    SyncWaits(results, i, backoff, retries, sleeps);
    SyncEnds(results, i, backoff, retries, sleeps);
  }

  predicate WaitsBounded(sleeps: seq<nat>)
  {
    forall k :: 0 <= k < |sleeps| ==> 1 <= sleeps[k] <= MaxBackoff
  }

  /** Every wait is between 1 and 60 seconds. */
  lemma {:induction false} SyncWaits(results: seq<Attempt>, i: nat, backoff: nat, retries: nat, sleeps: seq<nat>)
    requires i <= |results| && 1 <= backoff <= MaxBackoff && WaitsBounded(sleeps)
    ensures WaitsBounded(SyncFrom(results, i, backoff, retries, sleeps).sleeps)
    decreases |results| - i
  {
    if retries < MaxRetries && i < |results| {
      assert WaitsBounded(sleeps + [backoff]) by {
        assert forall k :: 0 <= k < |sleeps| ==> (sleeps + [backoff])[k] == sleeps[k];
      }
      match results[i]
      case Synced =>
      case RateLimited =>
        SyncWaits(results, i + 1, Min(backoff * 2, MaxBackoff), retries, sleeps + [backoff]);
      case Failed =>
        if retries + 1 < MaxRetries {
          SyncWaits(results, i + 1, backoff, retries + 1, sleeps + [backoff]);
        }
    }
  }

  /** How a run ended agrees with the attempts it used. */
  predicate EndsRight(results: seq<Attempt>, r: SyncRun)
    requires r.used <= |results|
  {
    && (r.end == GaveUp ==> 0 < r.used && Failures(results[..r.used]) == MaxRetries && results[r.used - 1] == Failed)
    && (r.end == SyncedOk ==> 0 < r.used && Failures(results[..r.used]) < MaxRetries && results[r.used - 1] == Synced)
    && (r.end == Unknown ==> r.used == |results| && Failures(results) < MaxRetries)
  }

  /** The loop gives up exactly at the third counted failure, and a sync ends it while fewer than three are counted. */
  lemma {:induction false} SyncEnds(results: seq<Attempt>, i: nat, backoff: nat, retries: nat, sleeps: seq<nat>)
    requires i <= |results| && retries < MaxRetries
    requires retries == Failures(results[..i])
    ensures EndsRight(results, SyncFrom(results, i, backoff, retries, sleeps))
    decreases |results| - i
  {
    var r := SyncFrom(results, i, backoff, retries, sleeps);
    if i < |results| {
      assert results[..i + 1] == results[..i] + [results[i]];
      FailuresSnoc(results[..i], results[i]);
      match results[i]
      case Synced =>
        assert r == SyncRun(SyncedOk, sleeps, i + 1);
      case RateLimited =>
        assert r == SyncFrom(results, i + 1, Min(backoff * 2, MaxBackoff), retries, sleeps + [backoff]);
        SyncEnds(results, i + 1, Min(backoff * 2, MaxBackoff), retries, sleeps + [backoff]);
      case Failed =>
        if retries + 1 < MaxRetries {
          assert r == SyncFrom(results, i + 1, backoff, retries + 1, sleeps + [backoff]);
          SyncEnds(results, i + 1, backoff, retries + 1, sleeps + [backoff]);
        } else {
          assert r == SyncRun(GaveUp, sleeps, i + 1);
        }
    } else {
      assert r == SyncRun(Unknown, sleeps, i);
      assert results[..i] == results;
    }
  }

  /** Any number of 429s before three failures still gives up: rate limits are never counted. */
  lemma {:induction false} RateLimitsNotCounted(n: nat, i: nat, backoff: nat, retries: nat, sleeps: seq<nat>)
    requires i <= n && retries < MaxRetries
    ensures SyncFrom(seq(n, k => RateLimited) + [Failed, Failed, Failed], i, backoff, retries, sleeps).end == GaveUp
    decreases n - i
  {
    var results := seq(n, k => RateLimited) + [Failed, Failed, Failed];
    if i < n {
      assert results[i] == RateLimited;
      RateLimitsNotCounted(n, i + 1, Min(backoff * 2, MaxBackoff), retries, sleeps + [backoff]);
    } else {
      FailuresToGiveUp(results, i, backoff, retries, sleeps);
    }
  }

  lemma {:induction false} FailuresToGiveUp(results: seq<Attempt>, i: nat, backoff: nat, retries: nat, sleeps: seq<nat>)
    requires i + MaxRetries - retries <= |results| && retries < MaxRetries
    requires forall k :: i <= k < i + MaxRetries - retries ==> results[k] == Failed
    ensures SyncFrom(results, i, backoff, retries, sleeps).end == GaveUp
    decreases MaxRetries - retries
  {
    assert results[i] == Failed;
    if retries + 1 < MaxRetries {
      FailuresToGiveUp(results, i + 1, backoff, retries + 1, sleeps + [backoff]);
    }
  }

  /** The sync in `setup_hook`, starting from a one-second backoff. */
  method SyncCommands(results: seq<Attempt>) returns (r: SyncRun)
    ensures r == SyncFrom(results, 0, 1, 0, [])
  {
    var backoff: nat := 1;
    var retries: nat := 0;
    var sleeps: seq<nat> := [];
    var i := 0;
    while retries < MaxRetries && i < |results|
      invariant i <= |results|
      invariant SyncFrom(results, i, backoff, retries, sleeps) == SyncFrom(results, 0, 1, 0, [])
      decreases |results| - i
    {
      match results[i] {
        case Synced =>
          return SyncRun(SyncedOk, sleeps, i + 1);
        case RateLimited =>
          sleeps := sleeps + [backoff];
          backoff := Min(backoff * 2, MaxBackoff);
        case Failed =>
          retries := retries + 1;
          if retries >= MaxRetries {
            return SyncRun(GaveUp, sleeps, i + 1);
          }
          sleeps := sleeps + [backoff];
      }
      i := i + 1;
    }
    if retries >= MaxRetries {
      return SyncRun(GaveUp, sleeps, i);
    }
    r := SyncRun(Unknown, sleeps, i);
  }

  // ---------------------------------------------------------------------------
  // The bot
  // ---------------------------------------------------------------------------

  class DiscordBot {
    /** `_response_tracker`. */
    var tracker: set<string>
    /** `_tracker_cleanup_time`. */
    var cleanedAt: int

    constructor(now: int)
      ensures tracker == {} && cleanedAt == now
    {
      tracker := {};
      cleanedAt := now;
    }

    /** `_should_respond`. */
    method ShouldRespond(channel: nat, message: nat, command: string, now: int) returns (ok: bool)
      modifies this
      ensures Tracked(ok, tracker, cleanedAt) == Track(old(tracker), old(cleanedAt), ResponseId(channel, message, command), now)
    {
      var key := ResponseId(channel, message, command);
      if now - cleanedAt > TrackerWindow {
        tracker := {};
        cleanedAt := now;
      }
      if key in tracker {
        return false;
      }
      tracker := tracker + {key};
      ok := true;
    }

    /** `invoke`: the command runs only when `_should_respond` allows it. */
    method Invoke(channel: nat, message: nat, command: string, now: int) returns (ran: bool)
      modifies this
      ensures Tracked(ran, tracker, cleanedAt) == Track(old(tracker), old(cleanedAt), ResponseId(channel, message, command), now)
    {
      ran := ShouldRespond(channel, message, command, now);
    }

    /**
     * `process_commands`: messages from bots, messages that are no command
     * and messages within the user's global cooldown stop before `invoke`.
     */
    method ProcessCommands(authorBot: bool, command: Option<string>, cooldownHit: bool, channel: nat, message: nat, now: int)
      returns (ran: bool)
      modifies this
      ensures authorBot || command.None? || cooldownHit ==> !ran && tracker == old(tracker) && cleanedAt == old(cleanedAt)
      ensures !(authorBot || command.None? || cooldownHit) ==>
                Tracked(ran, tracker, cleanedAt) == Track(old(tracker), old(cleanedAt), ResponseId(channel, message, command.value), now)
    {
      if authorBot || command.None? || cooldownHit {
        return false;
      }
      ran := Invoke(channel, message, command.value, now);
    }
  }
}
