/*
 * The giveaway lifecycle of the giveaway cog: starting a giveaway (duration
 * parsing and formatting), reaction entries, ending with forced winners,
 * sampling, verification and one backfill pass, rerolling, and the paginated
 * entries list.  The SQLite tables become the fields of `GiveawayStore`.
 */
module GiveawayCore {
  import opened Common

  // Limits of the giveaway configuration.
  const MinDuration: nat := 30
  const MaxDuration: nat := 31536000
  const MinWinners: int := 1
  const MaxWinners: int := 20
  const EntriesPerPage: nat := 20

  // ---------------------------------------------------------------------
  // Durations
  // ---------------------------------------------------------------------

  predicate IsUnit(c: char) { c == 's' || c == 'm' || c == 'h' || c == 'd' || c == 'w' }

  /** DURATION_UNITS of the giveaway configuration. */
  function UnitSeconds(c: char): nat
    requires IsUnit(c)
  {
    if c == 's' then 1
    else if c == 'm' then 60
    else if c == 'h' then 3600
    else if c == 'd' then 86400
    else 604800
  }

  /** One `<digits><unit>` pair, its digits already converted by int(). */
  datatype Amount = Amount(count: nat, unit: char)

  predicate UnitsOk(ms: seq<Amount>) { forall k :: 0 <= k < |ms| ==> IsUnit(ms[k].unit) }

  /** Length of the leading run of ASCII digits. */
  function DigitRun(s: string): (n: nat)
    ensures n <= |s|
    ensures forall i :: 0 <= i < n ==> IsDigit(s[i])
    ensures n < |s| ==> !IsDigit(s[n])
  {
    if s == [] || !IsDigit(s[0]) then 0 else 1 + DigitRun(s[1..])
  }

  /**
   * The matches of `(\d+)([smhdw])`, scanned left to right as findall does:
   * a match needs a maximal digit run followed by a unit letter; when the
   * attempt fails the scan moves on by one character.
   */
  function DurationMatches(s: string): (r: seq<Amount>)
    ensures UnitsOk(r)
    decreases |s|
  {
    if s == [] then []
    else
      var n := DigitRun(s);
      if 0 < n < |s| && IsUnit(s[n]) then
        [Amount(DigitsValue(s[..n]), s[n])] + DurationMatches(s[n + 1..])
      else DurationMatches(s[1..])
  }

  /** The sum of count * unit seconds. */
  function TotalSeconds(ms: seq<Amount>): nat
    requires UnitsOk(ms)
  {
    if ms == [] then 0 else ms[0].count * UnitSeconds(ms[0].unit) + TotalSeconds(ms[1..])
  }

  /** The duration check of the start command, after the winners check. */
  function ParseDuration(duration: string): (r: Result<nat>)
    ensures r.Ok? ==> MinDuration <= r.value <= MaxDuration
    ensures DurationMatches(Lower(duration)) == [] ==> r.Err?
  {
    var ms := DurationMatches(Lower(duration));
    if ms == [] then Err("Use formats like: 30s, 1h, 1h30m, 2d5h30m, 1w")
    else
      var secs := TotalSeconds(ms);
      if MinDuration <= secs <= MaxDuration then Ok(secs)
      else Err("Duration must be between 30s and 31536000s.")
  }

  /** The validation of the start command: winners first, then the duration. */
  function ValidateStart(duration: string, winners: int): (r: Result<nat>)
    ensures r.Ok? <==> MinWinners <= winners <= MaxWinners && ParseDuration(duration).Ok?
    ensures r.Ok? ==> r == ParseDuration(duration)
  {
    if !(MinWinners <= winners <= MaxWinners) then Err("Winners must be between 1 and 20.")
    else ParseDuration(duration)
  }

  /** "1H30m" is lower-cased and parses to an hour and a half. */
  lemma ParseDurationHourMinute(d: string)
    requires d == "1H30m"
    ensures ParseDuration(d) == Ok(5400)
  {
    LowerHourMinute(d);
    var lower := Lower(d);
    MatchesHourMinute(lower);
    var ms := [Amount(1, 'h'), Amount(30, 'm')];
    assert TotalSeconds(ms[1..]) == 1800 by { assert ms[1..][1..] == []; }
    assert TotalSeconds(ms) == 3600 + 1800;
    ParseDurationOf(d, ms);
  }

  lemma LowerHourMinute(d: string)
    requires d == "1H30m"
    ensures Lower(d) == "1h30m"
  {
    var lower := Lower(d);
    assert |lower| == 5 && lower[0] == '1' && lower[1] == 'h' && lower[2] == '3' && lower[3] == '0' && lower[4] == 'm';
  }

  lemma MatchesHourMinute(t: string)
    requires t == "1h30m"
    ensures DurationMatches(t) == [Amount(1, 'h'), Amount(30, 'm')]
  {
    assert DigitRun(t) == 1;
    assert t[..1] == "1" && t[1] == 'h';
    assert DigitsValue("1") == 1;
    var rest := t[2..];
    assert rest == "30m";
    MatchesThirtyMinutes(rest);
    assert DurationMatches(t) == [Amount(1, 'h')] + DurationMatches(rest);
  }

  lemma MatchesThirtyMinutes(u: string)
    requires u == "30m"
    ensures DurationMatches(u) == [Amount(30, 'm')]
  {
    assert u[2..] == "m" && u[1..][1..] == u[2..];
    assert DigitRun(u[2..]) == 0;
    assert DigitRun(u[1..]) == 1;
    assert DigitRun(u) == 2;
    assert u[..2] == "30";
    assert "30"[..1] == "3";
    assert DigitsValue("30") == 30;
    assert u[3..] == [];
  }

  /** A duration whose matches are known parses to their total when it is in range. */
  lemma ParseDurationOf(duration: string, ms: seq<Amount>)
    requires DurationMatches(Lower(duration)) == ms && ms != [] && UnitsOk(ms)
    requires MinDuration <= TotalSeconds(ms) <= MaxDuration
    ensures ParseDuration(duration) == Ok(TotalSeconds(ms))
  {
  }


  lemma ParseDurationNoUnit()
    ensures ParseDuration("10").Err?
  {
    assert Lower("10") == "10";
    assert DigitRun("10") == 2;
    assert "10"[1..] == "0";
    assert DigitRun("0") == 1;
    assert "0"[1..] == [];
    assert DurationMatches("10") == [];
  }

  lemma ParseDurationTooShort()
    ensures ParseDuration("5s").Err?
  {
    assert Lower("5s") == "5s";
    assert DigitRun("5s") == 1;
    assert "5s"[..1] == "5";
    assert "5s"[2..] == [];
    assert DurationMatches("5s") == [Amount(5, 's')];
  }

  /** The units fmt_dur walks through, largest first; seconds come last. */
  const DayHourMinute: seq<(nat, char)> := [(86400, 'd'), (3600, 'h'), (60, 'm')]

  predicate UnitTable(units: seq<(nat, char)>)
  {
    forall k :: 0 <= k < |units| ==> IsUnit(units[k].1) && units[k].0 == UnitSeconds(units[k].1) && units[k].0 > 0
  }

  /** The parts fmt_dur emits: each unit with a non-zero count, then the seconds. */
  function SplitUnits(sec: nat, units: seq<(nat, char)>): seq<Amount>
    requires UnitTable(units)
    decreases |units|
  {
    if units == [] then (if sec > 0 then [Amount(sec, 's')] else [])
    else if sec >= units[0].0 then [Amount(sec / units[0].0, units[0].1)] + SplitUnits(sec % units[0].0, units[1..])
    else SplitUnits(sec, units[1..])
  }

  function DurationParts(sec: nat): seq<Amount>
  {
    SplitUnits(sec, DayHourMinute)
  }

  function AmountText(a: Amount): string { NatToString(a.count) + [a.unit] }

  function AmountTexts(ps: seq<Amount>): (r: seq<string>)
    ensures |r| == |ps|
    ensures forall k :: 0 <= k < |ps| ==> r[k] == AmountText(ps[k])
  {
    if ps == [] then [] else [AmountText(ps[0])] + AmountTexts(ps[1..])
  }

  /** `" ".join(parts) or "0s"`. */
  function RenderDuration(ps: seq<Amount>): string
  {
    if ps == [] then "0s" else Join(" ", AmountTexts(ps))
  }

  lemma {:induction false} AmountTextsAppend(a: seq<Amount>, b: seq<Amount>)
    ensures AmountTexts(a + b) == AmountTexts(a) + AmountTexts(b)
  {
    if a != [] {
      assert (a + b)[1..] == a[1..] + b;
      AmountTextsAppend(a[1..], b);
    }
  }

  lemma {:induction false} JoinNonEmpty(sep: string, parts: seq<string>)
    requires parts != [] && |parts[0]| > 0
    ensures |Join(sep, parts)| > 0
  {
    if |parts| > 1 {
      assert Join(sep, parts) == parts[0] + sep + Join(sep, parts[1..]);
    }
  }

  lemma DayHourMinuteTable()
    ensures UnitTable(DayHourMinute) && Descending(DayHourMinute)
  {
  }

  /** One step of SplitUnits, as the loop body of fmt_dur takes it. */
  lemma SplitStep(rest: nat, units: seq<(nat, char)>)
    requires UnitTable(units) && units != []
    ensures rest >= units[0].0 ==>
              AmountTexts(SplitUnits(rest, units)) ==
              [NatToString(rest / units[0].0) + [units[0].1]] + AmountTexts(SplitUnits(rest % units[0].0, units[1..]))
    ensures rest < units[0].0 ==> SplitUnits(rest, units) == SplitUnits(rest, units[1..])
  {
    if rest >= units[0].0 {
      AmountTextsAppend([Amount(rest / units[0].0, units[0].1)], SplitUnits(rest % units[0].0, units[1..]));
    }
  }

  /** fmt_dur as the loop it is, proved to render DurationParts. */
  method FmtDur(sec: nat) returns (text: string)
    ensures text == RenderDuration(DurationParts(sec))
  {
    DayHourMinuteTable();
    var parts: seq<string> := [];
    var rest := sec;
    var units := DayHourMinute;
    while units != []
      invariant UnitTable(units)
      invariant parts + AmountTexts(SplitUnits(rest, units)) == AmountTexts(DurationParts(sec))
      decreases |units|
    {
      var unitSec := units[0].0;
      var letter := units[0].1;
      SplitStep(rest, units);
      if rest >= unitSec {
        var cnt := rest / unitSec;
        rest := rest % unitSec;
        parts := parts + [NatToString(cnt) + [letter]];
      }
      units := units[1..];
    }
    assert SplitUnits(rest, units) == if rest > 0 then [Amount(rest, 's')] else [];
    if rest > 0 {
      assert AmountTexts([Amount(rest, 's')]) == [NatToString(rest) + "s"];
      parts := parts + [NatToString(rest) + "s"];
    }
    assert parts == AmountTexts(DurationParts(sec));
    text := Join(" ", parts);
    if parts != [] {
      JoinNonEmpty(" ", parts);
    }
    if text == [] {
      text := "0s";
    }
  }

  lemma {:induction false} SplitUnitsTotal(sec: nat, units: seq<(nat, char)>)
    requires UnitTable(units)
    ensures UnitsOk(SplitUnits(sec, units))
    ensures TotalSeconds(SplitUnits(sec, units)) == sec
    decreases |units|
  {
    if units == [] {
    } else if sec >= units[0].0 {
      var u := units[0].0;
      SplitUnitsTotal(sec % u, units[1..]);
      var ps := SplitUnits(sec, units);
      assert ps[1..] == SplitUnits(sec % u, units[1..]);
      assert sec == (sec / u) * u + sec % u;
    } else {
      SplitUnitsTotal(sec, units[1..]);
    }
  }

  /** Unit sizes strictly decrease along the table and stay above one second. */
  ghost predicate Descending(units: seq<(nat, char)>)
  {
    (forall k :: 0 <= k < |units| ==> units[k].0 > 1 && units[k].1 in "dhm") &&
    (forall j, k :: 0 <= j < k < |units| ==> units[j].0 > units[k].0)
  }

  function Top(units: seq<(nat, char)>): nat
  {
    if units == [] then 1 else units[0].0
  }

  lemma SplitUnitsShape(sec: nat, units: seq<(nat, char)>)
    requires UnitTable(units) && Descending(units)
    ensures var ps := SplitUnits(sec, units);
            UnitsOk(ps) &&
            (forall k :: 0 <= k < |ps| ==> ps[k].count > 0 && ps[k].unit in "dhms") &&
            (forall k :: 0 <= k < |ps| ==> UnitSeconds(ps[k].unit) <= Top(units)) &&
            (forall k :: 0 <= k < |ps| - 1 ==> UnitSeconds(ps[k].unit) > UnitSeconds(ps[k + 1].unit))
  {
    SplitUnitsTotal(sec, units);
    SplitUnitsParts(sec, units);
    SplitUnitsDescend(sec, units);
  }

  /** Every part has a non-zero count of one of d, h, m, s, worth at most `top` seconds. */
  predicate PartsBelow(ps: seq<Amount>, top: nat)
    requires UnitsOk(ps)
  {
    forall k :: 0 <= k < |ps| ==> ps[k].count > 0 && ps[k].unit in "dhms" && UnitSeconds(ps[k].unit) <= top
  }

  /** The parts' units strictly decrease. */
  predicate UnitsDecrease(ps: seq<Amount>)
    requires UnitsOk(ps)
  {
    forall k :: 0 <= k < |ps| - 1 ==> UnitSeconds(ps[k].unit) > UnitSeconds(ps[k + 1].unit)
  }

  lemma {:induction false} SplitUnitsParts(sec: nat, units: seq<(nat, char)>)
    requires UnitTable(units) && Descending(units)
    ensures UnitsOk(SplitUnits(sec, units))
    ensures PartsBelow(SplitUnits(sec, units), Top(units))
    decreases |units|
  {
    SplitUnitsTotal(sec, units);
    if units != [] {
      var u := units[0].0;
      var next: nat := if sec >= u then sec % u else sec;
      SplitUnitsParts(next, units[1..]);
      assert Top(units[1..]) < u;
      var ps := SplitUnits(sec, units);
      var rest := SplitUnits(next, units[1..]);
      if sec >= u {
        assert ps == [Amount(sec / u, units[0].1)] + rest;
        assert sec / u > 0 && UnitSeconds(units[0].1) == u;
        forall k | 0 <= k < |ps| ensures ps[k].count > 0 && ps[k].unit in "dhms" && UnitSeconds(ps[k].unit) <= Top(units) {
          if k > 0 {
            assert ps[k] == rest[k - 1];
          }
        }
      } else {
        assert ps == rest;
      }
    }
  }

  lemma {:induction false} SplitUnitsDescend(sec: nat, units: seq<(nat, char)>)
    requires UnitTable(units) && Descending(units)
    ensures UnitsOk(SplitUnits(sec, units))
    ensures UnitsDecrease(SplitUnits(sec, units))
    decreases |units|
  {
    SplitUnitsTotal(sec, units);
    if units != [] {
      var u := units[0].0;
      var next: nat := if sec >= u then sec % u else sec;
      SplitUnitsDescend(next, units[1..]);
      var rest := SplitUnits(next, units[1..]);
      var ps := SplitUnits(sec, units);
      if sec < u {
        assert ps == rest;
      } else {
        SplitUnitsParts(next, units[1..]);
        assert Top(units[1..]) < u;
        assert ps == [Amount(sec / u, units[0].1)] + rest;
        forall k | 0 <= k < |ps| - 1 ensures UnitSeconds(ps[k].unit) > UnitSeconds(ps[k + 1].unit) {
          if k > 0 {
            assert ps[k] == rest[k - 1] && ps[k + 1] == rest[k];
          } else {
            assert ps[0].unit == units[0].1 && UnitSeconds(units[0].1) == u;
            assert ps[1] == rest[0];
          }
        }
      }
    }
  }

  lemma {:induction false} SplitUnitsZero(units: seq<(nat, char)>)
    requires UnitTable(units)
    ensures SplitUnits(0, units) == []
    decreases |units|
  {
    if units != [] {
      SplitUnitsZero(units[1..]);
    }
  }

  lemma TotalPositive(ps: seq<Amount>)
    requires UnitsOk(ps) && ps != [] && ps[0].count > 0
    ensures TotalSeconds(ps) > 0
  {
    assert ps[0].count * UnitSeconds(ps[0].unit) >= UnitSeconds(ps[0].unit);
  }

  /**
   * fmt_dur's parts sum back to the seconds, every count is non-zero, the
   * letters are among d, h, m, s and appear in that order, and there are no
   * parts exactly when the duration is zero.
   */
  lemma DurationPartsCanonical(sec: nat)
    ensures var ps := DurationParts(sec);
            UnitsOk(ps) &&
            TotalSeconds(ps) == sec &&
            (ps == [] <==> sec == 0) &&
            (forall k :: 0 <= k < |ps| ==> ps[k].count > 0 && ps[k].unit in "dhms") &&
            (forall k :: 0 <= k < |ps| - 1 ==> UnitSeconds(ps[k].unit) > UnitSeconds(ps[k + 1].unit))
  {
    DayHourMinuteTable();
    SplitUnitsTotal(sec, DayHourMinute);
    SplitUnitsShape(sec, DayHourMinute);
    if sec == 0 {
      SplitUnitsZero(DayHourMinute);
    } else if DurationParts(sec) != [] {
      TotalPositive(DurationParts(sec));
    }
  }

  // Round trip of fmt_dur through the parser.

  predicate NoUpper(s: string) { forall i :: 0 <= i < |s| ==> !('A' <= s[i] <= 'Z') }

  lemma LowerNoUpper(s: string)
    requires NoUpper(s)
    ensures Lower(s) == s
  {
  }

  lemma {:induction false} JoinNoUpper(sep: string, parts: seq<string>)
    requires NoUpper(sep)
    requires forall k :: 0 <= k < |parts| ==> NoUpper(parts[k])
    ensures NoUpper(Join(sep, parts))
  {
    if |parts| > 1 {
      JoinNoUpper(sep, parts[1..]);
      assert Join(sep, parts) == parts[0] + sep + Join(sep, parts[1..]);
    }
  }

  lemma {:induction false} DigitRunOfNumber(d: string, rest: string)
    requires AllDigits(d) && rest != [] && !IsDigit(rest[0])
    ensures DigitRun(d + rest) == |d|
  {
    if d != [] {
      assert (d + rest)[1..] == d[1..] + rest;
      DigitRunOfNumber(d[1..], rest);
    } else {
      assert d + rest == rest;
    }
  }

  lemma MatchesOfAmount(a: Amount, tail: string)
    requires IsUnit(a.unit)
    ensures DurationMatches(AmountText(a) + tail) == [a] + DurationMatches(tail)
  {
    var d := NatToString(a.count);
    var s := AmountText(a) + tail;
    assert s == d + ([a.unit] + tail);
    DigitRunOfNumber(d, [a.unit] + tail);
    assert s[..|d|] == d;
    NatToStringRoundTrip(a.count);
    assert s[|d|] == a.unit;
    assert s[|d| + 1..] == tail;
  }

  lemma {:induction false} MatchesOfRendered(ps: seq<Amount>)
    requires ps != [] && UnitsOk(ps)
    ensures DurationMatches(Join(" ", AmountTexts(ps))) == ps
  {
    if |ps| == 1 {
      MatchesOfAmount(ps[0], []);
      assert AmountText(ps[0]) + [] == AmountText(ps[0]);
    } else {
      MatchesOfRenderedStep(ps);
      MatchesOfRendered(ps[1..]);
      assert [ps[0]] + ps[1..] == ps;
    }
  }

  /** The first amount's text, then a space, then the rest of the rendering. */
  lemma MatchesOfRenderedStep(ps: seq<Amount>)
    requires |ps| >= 2 && UnitsOk(ps)
    ensures DurationMatches(Join(" ", AmountTexts(ps))) == [ps[0]] + DurationMatches(Join(" ", AmountTexts(ps[1..])))
  {
    var texts := AmountTexts(ps);
    assert AmountTexts(ps[1..]) == texts[1..];
    var rest := Join(" ", texts[1..]);
    assert Join(" ", texts) == AmountText(ps[0]) + (" " + rest);
    MatchesOfAmount(ps[0], " " + rest);
    assert DigitRun(" " + rest) == 0;
    assert (" " + rest)[1..] == rest;
    assert DurationMatches(" " + rest) == DurationMatches(rest);
  }

  /** The start command accepts the text fmt_dur shows for any valid duration. */
  lemma FmtDurParses(sec: nat)
    requires MinDuration <= sec <= MaxDuration
    ensures ParseDuration(RenderDuration(DurationParts(sec))) == Ok(sec)
  {
    var ps := DurationParts(sec);
    DurationPartsCanonical(sec);
    var texts := AmountTexts(ps);
    forall k | 0 <= k < |texts| ensures NoUpper(texts[k]) {
      assert texts[k] == NatToString(ps[k].count) + [ps[k].unit];
    }
    JoinNoUpper(" ", texts);
    LowerNoUpper(Join(" ", texts));
    MatchesOfRendered(ps);
  }

  // ---------------------------------------------------------------------
  // Tables
  // ---------------------------------------------------------------------

  datatype Status = Active | Ended | Cancelled | Error

  /** A row of the giveaways table. */
  datatype Giveaway = Giveaway(
    channelId: int,
    guildId: int,
    endTime: int,
    winnersCount: nat,
    prize: string,
    status: Status,
    hostId: int,
    createdAt: int,
    winnerIds: seq<string>,
    forcedWinnerIds: seq<string>,
    error: Option<string>,
    endedAt: Option<int>,
    rerolledAt: Option<int>,
    rerolledBy: Option<int>,
    cancelledAt: Option<int>,
    cancelledBy: Option<int>)

  /** A row of the participants table, keyed by (messageId, userId). */
  datatype Participant = Participant(
    messageId: string,
    userId: string,
    joinedAt: int,
    isForced: bool,
    isFake: bool,
    originalUserId: Option<string>)

  datatype PlanStatus = PlanActive | PlanCompleted | PlanCancelled | PlanError

  /** A row of the fake_reactions table, keyed by the giveaway's message id. */
  datatype FakePlan = FakePlan(
    channelId: int,
    totalReactions: nat,
    remainingReactions: nat,
    endTime: int,
    createdBy: int,
    createdAt: int,
    status: PlanStatus,
    completedAt: Option<int>,
    cancelledAt: Option<int>,
    error: Option<string>,
    fakeParticipants: seq<string>)

  predicate UniqueKeys(rows: seq<Participant>)
  {
    forall i, j :: 0 <= i < j < |rows| ==>
      rows[i].messageId != rows[j].messageId || rows[i].userId != rows[j].userId
  }

  /** Some row of the giveaway has this user id and the given fake flag. */
  predicate HasRow(rows: seq<Participant>, msgId: string, u: string, fake: bool)
  {
    exists i :: 0 <= i < |rows| && rows[i].messageId == msgId && rows[i].userId == u && rows[i].isFake == fake
  }

  predicate HasAnyRow(rows: seq<Participant>, msgId: string, u: string)
  {
    exists i :: 0 <= i < |rows| && rows[i].messageId == msgId && rows[i].userId == u
  }

  /** The user ids of one giveaway's rows, in table order. */
  function RowIds(rows: seq<Participant>, msgId: string): (r: seq<string>)
    ensures forall u :: u in r <==> HasAnyRow(rows, msgId, u)
  {
    if rows == [] then []
    else
      var r := RowIds(rows[1..], msgId);
      assert forall u :: HasAnyRow(rows[1..], msgId, u) ==> HasAnyRow(rows, msgId, u) by {
        forall u | HasAnyRow(rows[1..], msgId, u) ensures HasAnyRow(rows, msgId, u) {
          var i :| 0 <= i < |rows[1..]| && rows[1..][i].messageId == msgId && rows[1..][i].userId == u;
          assert rows[i + 1] == rows[1..][i];
        }
      }
      assert forall u :: HasAnyRow(rows, msgId, u) ==> (u == rows[0].userId && rows[0].messageId == msgId) || HasAnyRow(rows[1..], msgId, u) by {
        forall u | HasAnyRow(rows, msgId, u) ensures (u == rows[0].userId && rows[0].messageId == msgId) || HasAnyRow(rows[1..], msgId, u) {
          var i :| 0 <= i < |rows| && rows[i].messageId == msgId && rows[i].userId == u;
          if i > 0 { assert rows[1..][i - 1] == rows[i]; }
        }
      }
      (if rows[0].messageId == msgId then [rows[0].userId] else []) + r
  }

  /** `valid` of end_giveaway and reroll: non-fake rows other than the bot. */
  function DrawPool(rows: seq<Participant>, msgId: string, botId: string): (pool: seq<string>)
    ensures forall u :: u in pool <==> u != botId && HasRow(rows, msgId, u, false)
  {
    if rows == [] then []
    else
      var r := DrawPool(rows[1..], msgId, botId);
      assert forall u :: HasRow(rows[1..], msgId, u, false) ==> HasRow(rows, msgId, u, false) by {
        forall u | HasRow(rows[1..], msgId, u, false) ensures HasRow(rows, msgId, u, false) {
          var i :| 0 <= i < |rows[1..]| && rows[1..][i].messageId == msgId && rows[1..][i].userId == u && !rows[1..][i].isFake;
          assert rows[i + 1] == rows[1..][i];
        }
      }
      assert forall u :: HasRow(rows, msgId, u, false) ==> (u == rows[0].userId && rows[0].messageId == msgId && !rows[0].isFake) || HasRow(rows[1..], msgId, u, false) by {
        forall u | HasRow(rows, msgId, u, false) ensures (u == rows[0].userId && rows[0].messageId == msgId && !rows[0].isFake) || HasRow(rows[1..], msgId, u, false) {
          var i :| 0 <= i < |rows| && rows[i].messageId == msgId && rows[i].userId == u && !rows[i].isFake;
          if i > 0 { assert rows[1..][i - 1] == rows[i]; }
        }
      }
      (if rows[0].messageId == msgId && rows[0].userId != botId && !rows[0].isFake then [rows[0].userId] else []) + r
  }

  /** `fake_count`: the rows with is_fake set. */
  function FakeCount(rows: seq<Participant>, msgId: string): (n: nat)
    ensures n <= |rows|
    ensures n == 0 <==> forall u :: !HasRow(rows, msgId, u, true)
  {
    if rows == [] then 0
    else
      var n := FakeCount(rows[1..], msgId);
      assert forall u :: HasRow(rows[1..], msgId, u, true) ==> HasRow(rows, msgId, u, true) by {
        forall u | HasRow(rows[1..], msgId, u, true) ensures HasRow(rows, msgId, u, true) {
          var i :| 0 <= i < |rows[1..]| && rows[1..][i].messageId == msgId && rows[1..][i].userId == u && rows[1..][i].isFake;
          assert rows[i + 1] == rows[1..][i];
        }
      }
      assert forall u :: HasRow(rows, msgId, u, true) ==> (u == rows[0].userId && rows[0].messageId == msgId && rows[0].isFake) || HasRow(rows[1..], msgId, u, true) by {
        forall u | HasRow(rows, msgId, u, true) ensures (u == rows[0].userId && rows[0].messageId == msgId && rows[0].isFake) || HasRow(rows[1..], msgId, u, true) {
          var i :| 0 <= i < |rows| && rows[i].messageId == msgId && rows[i].userId == u && rows[i].isFake;
          if i > 0 { assert rows[1..][i - 1] == rows[i]; }
        }
      }
      if rows[0].messageId == msgId && rows[0].isFake then
        assert HasRow(rows, msgId, rows[0].userId, true);
        1 + n
      else n
  }

  /** `total_participants` of the ended view. */
  function TotalParticipants(rows: seq<Participant>, msgId: string, botId: string): nat
  {
    |DrawPool(rows, msgId, botId)| + FakeCount(rows, msgId)
  }

  lemma {:induction false} DrawPoolNoDup(rows: seq<Participant>, msgId: string, botId: string)
    requires UniqueKeys(rows)
    ensures NoDup(DrawPool(rows, msgId, botId))
  {
    if rows != [] {
      assert UniqueKeys(rows[1..]) by {
        forall i, j | 0 <= i < j < |rows[1..]|
          ensures rows[1..][i].messageId != rows[1..][j].messageId || rows[1..][i].userId != rows[1..][j].userId
        {
          assert rows[1..][i] == rows[i + 1] && rows[1..][j] == rows[j + 1];
        }
      }
      DrawPoolNoDup(rows[1..], msgId, botId);
      var tail := DrawPool(rows[1..], msgId, botId);
      var head := if rows[0].messageId == msgId && rows[0].userId != botId && !rows[0].isFake then [rows[0].userId] else [];
      assert head != [] ==> rows[0].userId !in tail;
      NoDupConcat(head, tail);
    }
  }

  /** A fake row can never be drawn, and the pool and the fake rows add up to the total. */
  lemma FakeNeverDrawn(rows: seq<Participant>, msgId: string, botId: string, u: string)
    requires UniqueKeys(rows) && HasRow(rows, msgId, u, true)
    ensures u !in DrawPool(rows, msgId, botId)
    ensures FakeCount(rows, msgId) > 0
  {
  }

  // ---------------------------------------------------------------------
  // Winner selection
  // ---------------------------------------------------------------------

  /** The first draw of end_giveaway: the forced winners, then a sample; nobody outside the two is drawn. */
  function DrawWinners(forced: seq<string>, pool: seq<string>, wc: nat, hint: seq<string>): (w: seq<string>)
    ensures |forced| <= |w| && w[..|forced|] == forced
    ensures forall x :: x in w ==> x in forced || x in pool
  {
    if forced != [] then
      var rem := Without(pool, forced);
      forced + Sample(rem, Max(0, Min(|rem|, wc - |forced|)), hint)
    else if pool != [] then Sample(pool, Min(|pool|, wc), hint)
    else []
  }

  /** Without forced winners the draw is min(|pool|, winners) distinct pool members. */
  lemma DrawWithoutForced(pool: seq<string>, wc: nat, hint: seq<string>)
    requires NoDup(pool)
    ensures IsSample(DrawWinners([], pool, wc, hint), pool, Min(|pool|, wc))
  {
  }

  /** Any duplicate-free choice of that size can come out of the draw. */
  lemma DrawWithoutForcedComplete(pool: seq<string>, wc: nat, s: seq<string>)
    requires NoDup(pool) && pool != [] && IsSample(s, pool, Min(|pool|, wc))
    ensures DrawWinners([], pool, wc, s) == s
  {
    SampleComplete(pool, Min(|pool|, wc), s);
  }

  /**
   * With forced winners they all come first, followed by
   * max(0, min(|pool - forced|, winners - |forced|)) distinct draws from
   * pool - forced.
   */
  lemma DrawWithForced(forced: seq<string>, pool: seq<string>, wc: nat, hint: seq<string>)
    requires forced != [] && NoDup(forced) && NoDup(pool)
    ensures var w := DrawWinners(forced, pool, wc, hint);
            var rem := Without(pool, forced);
            w[..|forced|] == forced &&
            IsSample(w[|forced|..], rem, Max(0, Min(|rem|, wc - |forced|))) &&
            NoDup(w)
  {
    var rem := Without(pool, forced);
    WithoutNoDup(pool, forced);
    var s := Sample(rem, Max(0, Min(|rem|, wc - |forced|)), hint);
    var w := forced + s;
    assert w[..|forced|] == forced && w[|forced|..] == s;
    NoDupConcat(forced, s);
  }

  /** The verification pass keeps the candidates `ok` accepts, in order. */
  function Backfilled(pool: seq<string>, winners: seq<string>, wc: nat, ok: string -> bool, hint: seq<string>): seq<string>
  {
    var verified := Filter(winners, ok);
    if |verified| < |winners| && |verified| < wc then TopUp(pool, verified, wc, ok, hint) else verified
  }

  /** The backfill: a second sample from the pool members not yet verified, itself verified. */
  function TopUp(pool: seq<string>, verified: seq<string>, wc: nat, ok: string -> bool, hint: seq<string>): seq<string>
  {
    var rem := Without(pool, verified);
    var needed := Min(|rem|, wc - |verified|);
    if needed > 0 then verified + Filter(Sample(rem, needed, hint), ok) else verified
  }

  /** The backfill when something remains to be drawn. */
  lemma TopUpTaken(pool: seq<string>, v: seq<string>, wc: nat, ok: string -> bool, hint: seq<string>,
                   rem: seq<string>, more: seq<string>)
    requires rem == Without(pool, v) && Min(|rem|, wc - |v|) > 0
    requires more == Filter(Sample(rem, Min(|rem|, wc - |v|), hint), ok)
    ensures TopUp(pool, v, wc, ok, hint) == v + more
  {
  }

  /** Everything that end_giveaway needs from the environment. */
  datatype EndEnv = EndEnv(
    fetchError: Option<string>,    // get_channel / fetch_message raised
    permissionsOk: bool,           // check_bot_permissions
    drawHint: seq<string>,         // the choice of the first random.sample
    backfillHint: seq<string>,     // the choice of the backfill random.sample
    verifyOk: string -> bool,      // _verify_winner (True when verification is off)
    displayError: Option<string>)  // clear_reactions / edit / reply raised

  /** The winners end_giveaway records: every one passed verification and is a forced id or a pool member. */
  function VerifiedWinners(gw: Giveaway, pool: seq<string>, env: EndEnv): (v: seq<string>)
    ensures forall x :: x in v ==> env.verifyOk(x) && (x in gw.forcedWinnerIds || x in pool)
  {
    Backfilled(pool, DrawWinners(gw.forcedWinnerIds, pool, gw.winnersCount, env.drawHint),
               gw.winnersCount, env.verifyOk, env.backfillHint)
  }

  /** The row end_giveaway leaves behind for an active giveaway. */
  function EndOutcome(gw: Giveaway, pool: seq<string>, env: EndEnv, now: int): (g: Giveaway)
    ensures g.status == Ended || g.status == Error
  {
    if env.fetchError.Some? then gw.(status := Error, error := env.fetchError)
    else if !env.permissionsOk then gw.(status := Error, error := Some("Missing permissions"))
    else if env.displayError.Some? then gw.(status := Error, error := env.displayError)
    else gw.(status := Ended, winnerIds := VerifiedWinners(gw, pool, env), endedAt := Some(now))
  }

  /** The first draw holds only forced ids and pool members, without repeats. */
  lemma DrawWinnersSound(forced: seq<string>, pool: seq<string>, wc: nat, hint: seq<string>)
    requires NoDup(pool) && NoDup(forced)
    ensures var w := DrawWinners(forced, pool, wc, hint);
            (forall x :: x in w ==> x in forced || x in pool) &&
            NoDup(w) &&
            |w| <= Max(wc, |forced|)
  {
    if forced != [] {
      DrawWithForced(forced, pool, wc, hint);
    }
  }

  /** The verification pass and the backfill keep verified, distinct candidates, at most max(winners, |draw|). */
  lemma BackfilledSound(pool: seq<string>, winners: seq<string>, wc: nat, ok: string -> bool, hint: seq<string>)
    requires NoDup(pool) && NoDup(winners)
    ensures var v := Backfilled(pool, winners, wc, ok, hint);
            (forall x :: x in v ==> ok(x) && (x in winners || x in pool)) &&
            NoDup(v) &&
            |v| <= Max(wc, |winners|)
  {
    var verified := Filter(winners, ok);
    FilterNoDup(winners, ok);
    if |verified| < |winners| && |verified| < wc {
      assert Backfilled(pool, winners, wc, ok, hint) == TopUp(pool, verified, wc, ok, hint);
      var rem := Without(pool, verified);
      var needed := Min(|rem|, wc - |verified|);
      if needed > 0 {
        WithoutNoDup(pool, verified);
        var extra := Sample(rem, needed, hint);
        var more := Filter(extra, ok);
        FilterNoDup(extra, ok);
        NoDupConcat(verified, more);
      }
    }
  }

  /**
   * The announced winners were all verified, are forced ids or pool members,
   * are distinct, and number at most max(winners, |forced|).
   */
  lemma VerifiedWinnersSound(gw: Giveaway, pool: seq<string>, env: EndEnv)
    requires NoDup(pool) && NoDup(gw.forcedWinnerIds)
    ensures var v := VerifiedWinners(gw, pool, env);
            (forall x :: x in v ==> env.verifyOk(x) && (x in gw.forcedWinnerIds || x in pool)) &&
            NoDup(v) &&
            |v| <= Max(gw.winnersCount, |gw.forcedWinnerIds|)
  {
    DrawWinnersSound(gw.forcedWinnerIds, pool, gw.winnersCount, env.drawHint);
    var w := DrawWinners(gw.forcedWinnerIds, pool, gw.winnersCount, env.drawHint);
    BackfilledSound(pool, w, gw.winnersCount, env.verifyOk, env.backfillHint);
  }

  /** The loop over candidates of end_giveaway: keep those that pass verification. */
  method VerifyCandidates(candidates: seq<string>, ok: string -> bool) returns (verified: seq<string>)
    ensures verified == Filter(candidates, ok)
  {
    verified := [];
    var i := 0;
    while i < |candidates|
      invariant 0 <= i <= |candidates|
      invariant verified == Filter(candidates[..i], ok)
    {
      FilterPrefixStep(candidates, i, ok);
      if ok(candidates[i]) {
        verified := verified + [candidates[i]];
      }
      i := i + 1;
    }
    assert candidates[..i] == candidates;
  }

  /** The selection of end_giveaway: draw, verify, and one backfill pass. */
  method ChooseWinners(gw: Giveaway, pool: seq<string>, env: EndEnv) returns (verified: seq<string>)
    ensures verified == VerifiedWinners(gw, pool, env)
  {
    var wc := gw.winnersCount;
    var winners := DrawWinners(gw.forcedWinnerIds, pool, wc, env.drawHint);
    ghost var target := Backfilled(pool, winners, wc, env.verifyOk, env.backfillHint);
    assert VerifiedWinners(gw, pool, env) == target;
    verified := VerifyCandidates(winners, env.verifyOk);
    if |verified| < |winners| && |verified| < wc {
      assert target == TopUp(pool, verified, wc, env.verifyOk, env.backfillHint);
      var remaining := Without(pool, verified);
      var needed := Min(|remaining|, wc - |verified|);
      if needed > 0 {
        var extra := Sample(remaining, needed, env.backfillHint);
        var more := VerifyCandidates(extra, env.verifyOk);
        TopUpTaken(pool, verified, wc, env.verifyOk, env.backfillHint, remaining, more);
        verified := verified + more;
      } else {
        assert target == verified;
      }
    } else {
      assert target == verified;
    }
  }

  // ---------------------------------------------------------------------
  // Entries list
  // ---------------------------------------------------------------------

  /** The user id a fake id was made from: the part before the first "_fake_". */
  function OriginalId(fid: string): (o: string)
    ensures !Contains(fid, "_fake_") ==> o == fid
    ensures Contains(fid, "_fake_") ==> StartsWith(fid, o) && OccursAt(fid, "_fake_", |o|) && !Contains(o, "_fake_")
  {
    if Contains(fid, "_fake_") then
      var i := Find(fid, "_fake_");
      assert !Contains(fid[..i], "_fake_") by {
        if Contains(fid[..i], "_fake_") {
          var j :| 0 <= j <= |fid[..i]| && OccursAt(fid[..i], "_fake_", j);
          assert OccursAt(fid, "_fake_", j);
        }
      }
      fid[..i]
    else fid
  }

  datatype EntryKind = RealEntry | FakeEntry
  datatype Entry = Entry(id: string, kind: EntryKind)

  function EntryIds(es: seq<Entry>): (r: seq<string>)
    ensures |r| == |es| && forall k :: 0 <= k < |es| ==> r[k] == es[k].id
  {
    if es == [] then [] else [es[0].id] + EntryIds(es[1..])
  }

  /** The first pass: row ids other than the bot, first occurrences only. */
  function RealPass(ids: seq<string>, botId: string): (r: seq<string>)
    ensures NoDup(r) && botId !in r
    ensures forall u :: u in r <==> u in ids && u != botId
  {
    if ids == [] then []
    else
      var r := RealPass(ids[..|ids| - 1], botId);
      var u := ids[|ids| - 1];
      assert forall x :: x in ids <==> x in ids[..|ids| - 1] || x == u;
      if u != botId && u !in r then r + [u] else r
  }

  /**
   * The second pass over the plan's fake ids: a fake id is listed when its
   * original user is not yet listed, and that user then counts as listed.
   */
  function FakePass(fakes: seq<string>, seen: set<string>): (r: (seq<string>, set<string>))
    ensures seen <= r.1
    ensures forall k :: 0 <= k < |r.0| ==> OriginalId(r.0[k]) in r.1 && OriginalId(r.0[k]) !in seen
    ensures forall j, k :: 0 <= j < k < |r.0| ==> OriginalId(r.0[j]) != OriginalId(r.0[k])
  {
    if fakes == [] then ([], seen)
    else
      var (ids, s) := FakePass(fakes[..|fakes| - 1], seen);
      var f := fakes[|fakes| - 1];
      var o := OriginalId(f);
      if o in s then (ids, s)
      else (ids + [f], s + {o})
  }

  function Tag(ids: seq<string>, kind: EntryKind): (r: seq<Entry>)
    ensures |r| == |ids| && forall k :: 0 <= k < |ids| ==> r[k] == Entry(ids[k], kind)
  {
    if ids == [] then [] else [Entry(ids[0], kind)] + Tag(ids[1..], kind)
  }

  /** The entries list as written: the first pass walks every row, fake rows included. */
  function EntriesAsWritten(rows: seq<Participant>, msgId: string, botId: string, fakes: seq<string>): seq<Entry>
  {
    var listed := RealPass(RowIds(rows, msgId), botId);
    Tag(listed, RealEntry) + Tag(FakePass(fakes, set u | u in listed).0, FakeEntry)
  }

  lemma OriginalIdOfFake()
    ensures OriginalId("2_fake_0") == "2"
  {
    assert "2_fake_0"[0..6][0] == '2';
    assert !OccursAt("2_fake_0", "_fake_", 0);
    assert OccursAt("2_fake_0", "_fake_", 1);
    assert Find("2_fake_0", "_fake_") == 1;
  }

  function ExampleRows(): seq<Participant>
  {
    [Participant("9", "1", 0, false, false, None), Participant("9", "2_fake_0", 0, false, true, Some("2"))]
  }

  lemma ExampleRowsPasses()
    ensures RowIds(ExampleRows(), "9") == ["1", "2_fake_0"]
    ensures DrawPool(ExampleRows(), "9", "0") == ["1"]
    ensures FakeCount(ExampleRows(), "9") == 1
  {
    var rows := ExampleRows();
    assert rows[1..][1..] == [];
  }

  lemma ExampleRealPass()
    ensures RealPass(["1", "2_fake_0"], "0") == ["1", "2_fake_0"]
  {
    var ids := ["1", "2_fake_0"];
    assert ids[..1] == ["1"];
    assert ids[..1][..0] == [];
  }

  lemma ExampleFakePass()
    ensures FakePass(["2_fake_0"], set u | u in ["1", "2_fake_0"]).0 == ["2_fake_0"]
  {
    OriginalIdOfFake();
    assert (set u | u in ["1", "2_fake_0"]) == {"1", "2_fake_0"};
    assert ["2_fake_0"][..0] == [];
  }

  /**
   * A completed fill stores the fake rows' ids in the plan, so a fake
   * participant is listed twice: once by the row pass and once by the plan pass.
   */
  lemma EntriesAsWrittenListsFakeTwice()
    ensures var es := EntriesAsWritten(ExampleRows(), "9", "0", ["2_fake_0"]);
            |es| == 3 && es[1].id == es[2].id == "2_fake_0" && TotalParticipants(ExampleRows(), "9", "0") == 2
  {
    ExampleRowsPasses();
    ExampleRealPass();
    ExampleFakePass();
  }

  /** The intended user of the first pass: only rows that are not fake. */
  function RealRowIds(rows: seq<Participant>, msgId: string): (r: seq<string>)
    ensures forall u :: u in r <==> HasRow(rows, msgId, u, false)
  {
    if rows == [] then []
    else
      var r := RealRowIds(rows[1..], msgId);
      assert forall u :: HasRow(rows[1..], msgId, u, false) ==> HasRow(rows, msgId, u, false) by {
        forall u | HasRow(rows[1..], msgId, u, false) ensures HasRow(rows, msgId, u, false) {
          var i :| 0 <= i < |rows[1..]| && rows[1..][i].messageId == msgId && rows[1..][i].userId == u && !rows[1..][i].isFake;
          assert rows[i + 1] == rows[1..][i];
        }
      }
      assert forall u :: HasRow(rows, msgId, u, false) ==> (u == rows[0].userId && rows[0].messageId == msgId && !rows[0].isFake) || HasRow(rows[1..], msgId, u, false) by {
        forall u | HasRow(rows, msgId, u, false) ensures (u == rows[0].userId && rows[0].messageId == msgId && !rows[0].isFake) || HasRow(rows[1..], msgId, u, false) {
          var i :| 0 <= i < |rows| && rows[i].messageId == msgId && rows[i].userId == u && !rows[i].isFake;
          if i > 0 { assert rows[1..][i - 1] == rows[i]; }
        }
      }
      (if rows[0].messageId == msgId && !rows[0].isFake then [rows[0].userId] else []) + r
  }

  /** The entries list with fake rows left to the plan pass. */
  function Entries(rows: seq<Participant>, msgId: string, botId: string, fakes: seq<string>): seq<Entry>
  {
    Tag(Listed(rows, msgId, botId), RealEntry) + Tag(FakeListed(rows, msgId, botId, fakes), FakeEntry)
  }

  /** The users the first pass lists. */
  function Listed(rows: seq<Participant>, msgId: string, botId: string): seq<string>
  {
    RealPass(RealRowIds(rows, msgId), botId)
  }

  /** The fake ids the second pass lists, after the first pass's users. */
  function FakeListed(rows: seq<Participant>, msgId: string, botId: string, fakes: seq<string>): seq<string>
  {
    FakePass(fakes, set u | u in Listed(rows, msgId, botId)).0
  }

  /** The entries list is the real pass, tagged real, then the fake pass, tagged fake. */
  lemma EntriesShape(rows: seq<Participant>, msgId: string, botId: string, fakes: seq<string>)
    ensures var es := Entries(rows, msgId, botId, fakes);
            var listed := Listed(rows, msgId, botId);
            var fp := FakeListed(rows, msgId, botId, fakes);
            |es| == |listed| + |fp| &&
            (forall k :: 0 <= k < |listed| ==> es[k] == Entry(listed[k], RealEntry)) &&
            (forall k :: |listed| <= k < |es| ==> es[k] == Entry(fp[k - |listed|], FakeEntry))
  {
    TagConcat(Listed(rows, msgId, botId), FakeListed(rows, msgId, botId, fakes));
  }

  lemma TagConcat(a: seq<string>, b: seq<string>)
    ensures var es := Tag(a, RealEntry) + Tag(b, FakeEntry);
            |es| == |a| + |b| &&
            (forall k :: 0 <= k < |a| ==> es[k] == Entry(a[k], RealEntry)) &&
            (forall k :: |a| <= k < |es| ==> es[k] == Entry(b[k - |a|], FakeEntry))
  {
    var ta := Tag(a, RealEntry);
    var tb := Tag(b, FakeEntry);
    forall k | |a| <= k < |a| + |b| ensures (ta + tb)[k] == Entry(b[k - |a|], FakeEntry) {
      assert (ta + tb)[k] == tb[k - |a|];
    }
  }

  /** Exactly the pool members are listed as real entries, each once. */
  lemma EntriesRealOnce(rows: seq<Participant>, msgId: string, botId: string, fakes: seq<string>)
    ensures var es := Entries(rows, msgId, botId, fakes);
            (forall u :: (exists k :: 0 <= k < |es| && es[k] == Entry(u, RealEntry)) <==> u in DrawPool(rows, msgId, botId)) &&
            (forall j, k :: 0 <= j < k < |es| && es[j].kind == RealEntry && es[k].kind == RealEntry ==> es[j].id != es[k].id)
  {
    EntriesShape(rows, msgId, botId, fakes);
    var es := Entries(rows, msgId, botId, fakes);
    var listed := Listed(rows, msgId, botId);
    forall u ensures (exists k :: 0 <= k < |es| && es[k] == Entry(u, RealEntry)) <==> u in DrawPool(rows, msgId, botId) {
      if u in DrawPool(rows, msgId, botId) {
        var k :| 0 <= k < |listed| && listed[k] == u;
        assert es[k] == Entry(u, RealEntry);
      }
    }
  }

  /** A fake entry never stands for a user listed as real. */
  lemma EntriesFakeNotReal(rows: seq<Participant>, msgId: string, botId: string, fakes: seq<string>, j: nat, k: nat)
    requires var es := Entries(rows, msgId, botId, fakes);
             j < |es| && k < |es| && es[j].kind == RealEntry && es[k].kind == FakeEntry
    ensures var es := Entries(rows, msgId, botId, fakes);
            OriginalId(es[k].id) != es[j].id
  {
    EntriesShape(rows, msgId, botId, fakes);
    var listed := Listed(rows, msgId, botId);
    var seen := set u | u in listed;
    var fp := FakeListed(rows, msgId, botId, fakes);
    assert fp == FakePass(fakes, seen).0;
    assert j < |listed| <= k;
    assert listed[j] in seen;
    assert OriginalId(fp[k - |listed|]) !in seen;
  }

  /** No two fake entries stand for the same user. */
  lemma EntriesFakesDistinct(rows: seq<Participant>, msgId: string, botId: string, fakes: seq<string>, j: nat, k: nat)
    requires var es := Entries(rows, msgId, botId, fakes);
             j < k < |es| && es[j].kind == FakeEntry && es[k].kind == FakeEntry
    ensures var es := Entries(rows, msgId, botId, fakes);
            OriginalId(es[j].id) != OriginalId(es[k].id)
  {
    EntriesShape(rows, msgId, botId, fakes);
    var listed := Listed(rows, msgId, botId);
    var fp := FakeListed(rows, msgId, botId, fakes);
    assert fp == FakePass(fakes, set u | u in listed).0;
    assert |listed| <= j;
  }

  /** `max(1, ceil(total / 20))`. */
  function PageCount(total: nat): (n: nat)
    ensures n >= 1
    ensures total > 0 ==> (n - 1) * EntriesPerPage < total <= n * EntriesPerPage
  {
    Max(1, (total + EntriesPerPage - 1) / EntriesPerPage)
  }

  /** The page shown, after clamping, with its slice bounds. */
  datatype PageView = PageView(page: nat, start: nat, end: nat, pages: nat)

  function EntriesPage(total: nat, page: int): (v: PageView)
    ensures v.pages == PageCount(total) && v.page < v.pages
    ensures v.start == v.page * EntriesPerPage && v.start <= v.end <= total
    ensures v.end - v.start <= EntriesPerPage
    ensures total > 0 ==> v.start < v.end
    ensures 0 <= page < v.pages ==> v.page == page
  {
    var pages := PageCount(total);
    var p := Max(0, Min(page, pages - 1));
    var start := p * EntriesPerPage;
    PageView(p, if total == 0 then 0 else start, if total == 0 then 0 else Min(start + EntriesPerPage, total), pages)
  }

  /** Every entry is on exactly one page, the page index / 20. */
  lemma EntryOnOnePage(total: nat, k: nat, page: nat)
    requires k < total && page < PageCount(total)
    ensures var v := EntriesPage(total, page);
            v.start <= k < v.end <==> page == k / EntriesPerPage
  {
  }

  /** Disabled flags of the four buttons of the entries pagination view. */
  datatype Buttons = Buttons(first: bool, prev: bool, next: bool, last: bool)

  function EntriesButtons(page: int, pages: int): (b: Buttons)
    ensures 0 <= page < pages ==> (!b.prev <==> page - 1 >= 0) && (!b.next <==> page + 1 < pages)
    ensures b.first == b.last && (b.first <==> pages <= 1)
  {
    var single := pages <= 1;
    Buttons(single, single || page == 0, single || page == pages - 1, single)
  }

  // ---------------------------------------------------------------------
  // Reroll
  // ---------------------------------------------------------------------

  datatype RerollEnv = RerollEnv(
    dbConnected: bool,
    hasReference: bool,
    fetchError: Option<string>,      // fetch_message of the referenced message raised
    end: EndEnv,                     // used if the giveaway is still active
    drawHint: seq<string>,
    editError: Option<string>)       // orig.edit raised

  /** The reroll draw: min(|remaining|, winners) from the pool without the previous winners. */
  function RerollDraw(pool: seq<string>, prev: seq<string>, wc: nat, hint: seq<string>): (r: Result<seq<string>>)
    ensures r.Err? <==> Without(pool, prev) == []
    ensures r.Ok? && NoDup(pool) ==> IsSample(r.value, Without(pool, prev), Min(|Without(pool, prev)|, wc))
    ensures r.Ok? ==> forall x :: x in r.value ==> x in pool && x !in prev
  {
    var rem := Without(pool, prev);
    if rem == [] then Err("No participants left for reroll.")
    else
      WithoutNoDupIf(pool, prev);
      Ok(Sample(rem, Min(|rem|, wc), hint))
  }

  lemma WithoutNoDupIf(pool: seq<string>, prev: seq<string>)
    ensures NoDup(pool) ==> NoDup(Without(pool, prev))
  {
    if NoDup(pool) {
      WithoutNoDup(pool, prev);
    }
  }

  /**
   * As written, reroll takes the previous winners from the row read before
   * ending the giveaway; for a still-active giveaway that list is empty.
   */
  function RerollPrevAsWritten(before: Giveaway, after: Giveaway): seq<string>
  {
    before.winnerIds
  }

  /** The intended previous winners: those of the row after ending it. */
  function RerollPrev(before: Giveaway, after: Giveaway): seq<string>
  {
    after.winnerIds
  }

  /**
   * With one participant, rerolling a still-active giveaway as written
   * "rerolls" the winner that ending it just announced.
   */
  lemma RerollAsWrittenRepeatsWinner()
    ensures var before := Giveaway(1, 1, 0, 1, "prize", Active, 1, 0, [], [], None, None, None, None, None, None);
            var rows := [Participant("9", "5", 0, false, false, None)];
            var env := EndEnv(None, true, [], [], _ => true, None);
            var pool := DrawPool(rows, "9", "0");
            var after := EndOutcome(before, pool, env, 10);
            after.winnerIds == ["5"] &&
            RerollDraw(pool, RerollPrevAsWritten(before, after), 1, []) == Ok(["5"]) &&
            RerollDraw(pool, RerollPrev(before, after), 1, []).Err?
  {
    var before := Giveaway(1, 1, 0, 1, "prize", Active, 1, 0, [], [], None, None, None, None, None, None);
    var rows := [Participant("9", "5", 0, false, false, None)];
    var pool := DrawPool(rows, "9", "0");
    assert pool == ["5"];
    var s := Sample(pool, 1, []);
    assert s == ["5"];
    var ok: string -> bool := _ => true;
    assert Filter(["5"], ok) == ["5"];
    assert DrawWinners([], pool, 1, []) == ["5"];
  }

  /** The row reroll draws against: a still-active giveaway is ended first. */
  function RerollBase(gw: Giveaway, pool: seq<string>, env: EndEnv, now: int): (g: Giveaway)
    ensures g.status != Active
    ensures gw.status != Active ==> g == gw
  {
    if gw.status == Active then EndOutcome(gw, pool, env, now) else gw
  }

  /**
   * Reroll's reply and the row it leaves, once the database, the reply and
   * the giveaway are there: the winners of the row after ending are
   * excluded, and only an edit that works records the new winners.
   */
  function RerollOutcome(gw: Giveaway, pool: seq<string>, now: int, authorId: int, env: RerollEnv): (Result<seq<string>>, Giveaway)
  {
    var base := RerollBase(gw, pool, env.end, now);
    var draw := RerollDraw(pool, base.winnerIds, gw.winnersCount, env.drawHint);
    if draw.Err? then (Err(draw.error), base)
    else if env.editError.Some? then (Err("Error rerolling: " + env.editError.value), base)
    else (Ok(draw.value), base.(winnerIds := draw.value, rerolledAt := Some(now), rerolledBy := Some(authorId)))
  }

  /**
   * A reroll fails exactly when nobody is left besides the previous winners
   * or the edit fails, and then leaves the ended row; a successful one
   * draws min(left, winners) distinct pool members who were not winners and
   * records them with the time and the author.
   */
  lemma RerollOutcomeSound(gw: Giveaway, pool: seq<string>, now: int, authorId: int, env: RerollEnv)
    requires NoDup(pool)
    ensures var base := RerollBase(gw, pool, env.end, now);
            var left := Without(pool, base.winnerIds);
            var (r, row) := RerollOutcome(gw, pool, now, authorId, env);
            && (r.Err? <==> left == [] || env.editError.Some?)
            && (r.Err? ==> row == base)
            && (r.Ok? ==> IsSample(r.value, left, Min(|left|, gw.winnersCount))
                          && (forall x :: x in r.value ==> x in pool && x !in base.winnerIds)
                          && row == base.(winnerIds := r.value, rerolledAt := Some(now), rerolledBy := Some(authorId)))
            && row.status != Active
  {
  }

  // ---------------------------------------------------------------------
  // The store
  // ---------------------------------------------------------------------

  /** Outcome of a reaction event. */
  datatype Reaction = Reaction(messageId: string, userId: string, emoji: string)

  /** The reaction emoji of the giveaway configuration. */
  const ReactionEmoji: string := "\U{1F389}"

  class GiveawayStore {
    var giveaways: map<string, Giveaway>
    var participants: seq<Participant>
    var plans: map<string, FakePlan>

    ghost predicate Valid()
      reads this
    {
      UniqueKeys(participants) &&
      forall m :: m in giveaways ==> NoDup(giveaways[m].forcedWinnerIds)
    }

    constructor ()
      ensures Valid()
      ensures giveaways == map[] && participants == [] && plans == map[]
    {
      giveaways := map[];
      participants := [];
      plans := map[];
    }

    function Pool(msgId: string, botId: string): seq<string>
      reads this
    {
      DrawPool(participants, msgId, botId)
    }

    /**
     * start_giveaway after the channel and permission checks: validate, then
     * insert an active row with empty winner lists (when the database is up).
     * A duplicate message id makes the INSERT fail.
     */
    method StartGiveaway(msgId: string, channelId: int, guildId: int, duration: string, winners: int,
                         prize: string, hostId: int, now: int, dbConnected: bool) returns (r: Result<int>)
      requires Valid()
      modifies this
      ensures Valid()
      ensures r.Ok? ==> ValidateStart(duration, winners).Ok? && r.value == now + ValidateStart(duration, winners).value
      ensures ValidateStart(duration, winners).Err? ==> r.Err? && unchanged(this)
      ensures r.Ok? && dbConnected ==>
                giveaways == old(giveaways)[msgId := Giveaway(channelId, guildId, r.value, winners as nat, prize, Active, hostId, now, [], [], None, None, None, None, None, None)]
      ensures r.Err? || !dbConnected ==> giveaways == old(giveaways)
      ensures participants == old(participants) && plans == old(plans)
    {
      var v := ValidateStart(duration, winners);
      if v.Err? {
        return Err(v.error);
      }
      var endTs := now + v.value;
      if dbConnected {
        if msgId in giveaways {
          return Err("Unexpected error.");
        }
        giveaways := giveaways[msgId := Giveaway(channelId, guildId, endTs, winners as nat, prize, Active, hostId, now, [], [], None, None, None, None, None, None)];
      }
      r := Ok(endTs);
    }

    /** end_giveaway, with the verification loops of the source. */
    method EndGiveaway(msgId: string, botId: string, now: int, env: EndEnv)
      requires Valid()
      modifies this
      ensures Valid()
      ensures participants == old(participants) && plans == old(plans)
      ensures msgId in old(giveaways) && old(giveaways)[msgId].status == Active ==>
                giveaways == old(giveaways)[msgId := EndOutcome(old(giveaways)[msgId], old(Pool(msgId, botId)), env, now)]
      ensures !(msgId in old(giveaways) && old(giveaways)[msgId].status == Active) ==> giveaways == old(giveaways)
    {
      if msgId !in giveaways || giveaways[msgId].status != Active {
        return;
      }
      var gw := giveaways[msgId];
      if env.fetchError.Some? {
        giveaways := giveaways[msgId := gw.(status := Error, error := env.fetchError)];
        return;
      }
      if !env.permissionsOk {
        giveaways := giveaways[msgId := gw.(status := Error, error := Some("Missing permissions"))];
        return;
      }
      var pool := DrawPool(participants, msgId, botId);
      var verified := ChooseWinners(gw, pool, env);
      if env.displayError.Some? {
        giveaways := giveaways[msgId := gw.(status := Error, error := env.displayError)];
        return;
      }
      giveaways := giveaways[msgId := gw.(status := Ended, winnerIds := verified, endedAt := Some(now))];
    }

    /** end_giveaway on an active giveaway, as the sweep sees it: that row leaves Active, no other changes. */
    method EndDue(msgId: string, botId: string, now: int, env: EndEnv)
      requires Valid() && msgId in giveaways && giveaways[msgId].status == Active
      modifies this
      ensures Valid()
      ensures participants == old(participants) && plans == old(plans)
      ensures giveaways.Keys == old(giveaways.Keys)
      ensures giveaways[msgId] == EndOutcome(old(giveaways[msgId]), DrawPool(participants, msgId, botId), env, now)
      ensures forall x :: x in giveaways && x != msgId ==> giveaways[x] == old(giveaways[x])
    {
      EndGiveaway(msgId, botId, now, env);
    }

    /** The ids check_giveaways selects: active rows whose end time has passed. */
    function Due(now: int): set<string>
      reads this
    {
      set m | m in giveaways && giveaways[m].endTime <= now && giveaways[m].status == Active
    }

    /**
     * check_giveaways: without the database nothing happens; otherwise every
     * due giveaway is ended as end_giveaway ends it, so none of them stays
     * active, and every other giveaway is untouched.
     */
    method CheckGiveaways(botId: string, now: int, dbConnected: bool, envOf: string -> EndEnv)
      requires Valid()
      modifies this
      ensures Valid()
      ensures !dbConnected ==> unchanged(this)
      ensures giveaways.Keys == old(giveaways.Keys)
      ensures dbConnected ==> forall m :: m in old(Due(now)) ==>
                giveaways[m] == EndOutcome(old(giveaways[m]), DrawPool(participants, m, botId), envOf(m), now)
      ensures forall m :: m in old(Due(now)) && dbConnected ==> giveaways[m].status in {Ended, Error}
      ensures forall m :: m in giveaways && m !in old(Due(now)) ==> giveaways[m] == old(giveaways[m])
      ensures participants == old(participants) && plans == old(plans)
    {
      if !dbConnected {
        return;
      }
      var todo := Due(now);
      ghost var due := todo;
      while todo != {}
        invariant Valid()
        invariant todo <= due
        invariant giveaways.Keys == old(giveaways.Keys)
        invariant forall m :: m in todo ==> giveaways[m] == old(giveaways[m])
        invariant forall m :: m in due && m !in todo ==>
                    giveaways[m] == EndOutcome(old(giveaways[m]), DrawPool(participants, m, botId), envOf(m), now)
        invariant forall m :: m in giveaways && m !in due ==> giveaways[m] == old(giveaways[m])
        invariant participants == old(participants) && plans == old(plans)
        decreases |todo|
      {
        var m :| m in todo;
        EndDue(m, botId, now, envOf(m));
        RemoveShrinks(todo, m);
        todo := todo - {m};
      }
    }

    /** on_raw_reaction_add: a real entry for a non-bot user on an active giveaway. */
    method OnReactionAdd(ev: Reaction, botId: string, now: int, dbConnected: bool)
      requires Valid()
      modifies this
      ensures Valid()
      ensures giveaways == old(giveaways) && plans == old(plans)
      ensures var inserts := dbConnected && ev.userId != botId && ev.messageId in giveaways &&
                             giveaways[ev.messageId].status == Active && ev.emoji == ReactionEmoji &&
                             !HasAnyRow(old(participants), ev.messageId, ev.userId);
              participants == old(participants) + (if inserts then [Participant(ev.messageId, ev.userId, now, false, false, None)] else [])
    {
      if !dbConnected || ev.userId == botId {
        return;
      }
      if ev.messageId !in giveaways || giveaways[ev.messageId].status != Active || ev.emoji != ReactionEmoji {
        return;
      }
      if HasAnyRow(participants, ev.messageId, ev.userId) {
        return;
      }
      var row := Participant(ev.messageId, ev.userId, now, false, false, None);
      assert forall i :: 0 <= i < |participants| ==> participants[i].messageId != row.messageId || participants[i].userId != row.userId;
      participants := participants + [row];
    }

    /** on_raw_reaction_remove: deletes the entry whatever the giveaway's status. */
    method OnReactionRemove(ev: Reaction, botId: string, dbConnected: bool)
      requires Valid()
      modifies this
      ensures Valid()
      ensures giveaways == old(giveaways) && plans == old(plans)
      ensures var deletes := dbConnected && ev.userId != botId && ev.messageId in giveaways && ev.emoji == ReactionEmoji;
              participants == if deletes then DeleteRow(old(participants), ev.messageId, ev.userId) else old(participants)
    {
      if !dbConnected || ev.userId == botId {
        return;
      }
      if ev.messageId !in giveaways || ev.emoji != ReactionEmoji {
        return;
      }
      DeleteRowKeys(participants, ev.messageId, ev.userId);
      participants := DeleteRow(participants, ev.messageId, ev.userId);
    }

    /** reroll_giveaway, with the previous winners read after ending the giveaway. */
    method Reroll(msgId: string, botId: string, authorId: int, now: int, env: RerollEnv) returns (r: Result<seq<string>>)
      requires Valid()
      modifies this
      ensures Valid()
      ensures participants == old(participants) && plans == old(plans)
      ensures giveaways.Keys == old(giveaways.Keys)
      ensures env.dbConnected && env.hasReference && env.fetchError.None? && msgId in old(giveaways) ==>
                var (res, row) := RerollOutcome(old(giveaways)[msgId], old(Pool(msgId, botId)), now, authorId, env);
                r == res && giveaways == old(giveaways)[msgId := row]
      ensures r.Ok? ==> msgId in old(giveaways) &&
                        var base := RerollBase(old(giveaways)[msgId], old(Pool(msgId, botId)), env.end, now);
                        var left := Without(old(Pool(msgId, botId)), base.winnerIds);
                        IsSample(r.value, left, Min(|left|, old(giveaways)[msgId].winnersCount))
      ensures (!env.dbConnected || !env.hasReference || env.fetchError.Some? || msgId !in old(giveaways)) ==> r.Err? && unchanged(this)
    {
      if !env.dbConnected {
        return Err("DB not connected.");
      }
      if !env.hasReference {
        return Err("Reply to a giveaway message to reroll.");
      }
      if env.fetchError.Some? {
        return Err("Error rerolling: " + env.fetchError.value);
      }
      if msgId !in giveaways {
        return Err("Giveaway not found.");
      }
      DrawPoolNoDup(participants, msgId, botId);
      RerollOutcomeSound(giveaways[msgId], Pool(msgId, botId), now, authorId, env);
      r := RerollFound(msgId, botId, authorId, now, env);
    }

    /** The part of reroll after the giveaway's row is found: end it if active, draw, edit, record. */
    method RerollFound(msgId: string, botId: string, authorId: int, now: int, env: RerollEnv) returns (r: Result<seq<string>>)
      requires Valid() && msgId in giveaways
      modifies this
      ensures Valid()
      ensures participants == old(participants) && plans == old(plans)
      ensures var (res, row) := RerollOutcome(old(giveaways)[msgId], old(Pool(msgId, botId)), now, authorId, env);
              r == res && giveaways == old(giveaways)[msgId := row]
    {
      var before := giveaways[msgId];
      ghost var pool0 := Pool(msgId, botId);
      if before.status == Active {
        EndGiveaway(msgId, botId, now, env.end);
      }
      var after := giveaways[msgId];
      assert after == RerollBase(before, pool0, env.end, now);
      assert giveaways == old(giveaways)[msgId := after];
      var pool := DrawPool(participants, msgId, botId);
      var draw := RerollDraw(pool, RerollPrev(before, after), before.winnersCount, env.drawHint);
      if draw.Err? {
        return Err(draw.error);
      }
      if env.editError.Some? {
        return Err("Error rerolling: " + env.editError.value);
      }
      var row := after.(winnerIds := draw.value, rerolledAt := Some(now), rerolledBy := Some(authorId));
      MapUpdateTwice(old(giveaways), msgId, after, row);
      giveaways := giveaways[msgId := row];
      r := Ok(draw.value);
    }

    /** show_entries with the loops of the source; None when the giveaway is missing. */
    method ShowEntries(msgId: string, botId: string, page: int) returns (r: Option<(seq<Entry>, PageView)>)
      ensures msgId !in giveaways ==> r.None?
      ensures msgId in giveaways ==> (r.Some? &&
                (var fakes := if msgId in plans then plans[msgId].fakeParticipants else [];
                 var all := Entries(participants, msgId, botId, fakes);
                 var v := EntriesPage(|all|, page);
                 r.value.1 == v && r.value.0 == all[v.start..v.end]))
    {
      if msgId !in giveaways {
        return None;
      }
      var ids := RealRowIds(participants, msgId);
      var fakes := if msgId in plans then plans[msgId].fakeParticipants else [];
      var listed, seen := ListReal(ids, botId);
      var fakeIds, _ := ListFakes(fakes, seen);
      assert listed == Listed(participants, msgId, botId);
      assert fakeIds == FakeListed(participants, msgId, botId, fakes);
      var all := Tag(listed, RealEntry) + Tag(fakeIds, FakeEntry);
      var v := EntriesPage(|all|, page);
      r := Some((all[v.start..v.end], v));
    }
  }

  /** The first loop of show_entries: real ids in row order, skipping the bot and repeats. */
  method ListReal(ids: seq<string>, botId: string) returns (listed: seq<string>, seen: set<string>)
    ensures listed == RealPass(ids, botId)
    ensures seen == set u | u in listed
  {
    seen, listed := {}, [];
    var i := 0;
    while i < |ids|
      invariant 0 <= i <= |ids|
      invariant listed == RealPass(ids[..i], botId)
      invariant seen == set u | u in listed
    {
      assert ids[..i + 1][..i] == ids[..i];
      if ids[i] != botId && ids[i] !in seen {
        seen := seen + {ids[i]};
        listed := listed + [ids[i]];
      }
      i := i + 1;
    }
    assert ids[..i] == ids;
  }

  /** The second loop of show_entries: a fake id is listed when its original user is not seen yet. */
  method ListFakes(fakes: seq<string>, seen0: set<string>) returns (fakeIds: seq<string>, seen: set<string>)
    ensures (fakeIds, seen) == FakePass(fakes, seen0)
  {
    fakeIds, seen := [], seen0;
    var j := 0;
    while j < |fakes|
      invariant 0 <= j <= |fakes|
      invariant (fakeIds, seen) == FakePass(fakes[..j], seen0)
    {
      assert fakes[..j + 1][..j] == fakes[..j];
      var o := OriginalId(fakes[j]);
      if o !in seen {
        seen := seen + {o};
        fakeIds := fakeIds + [fakes[j]];
      }
      j := j + 1;
    }
    assert fakes[..j] == fakes;
  }

  /** DELETE FROM participants WHERE message_id = ? AND user_id = ?. */
  function DeleteRow(rows: seq<Participant>, msgId: string, u: string): (r: seq<Participant>)
    ensures forall x :: x in r <==> x in rows && (x.messageId != msgId || x.userId != u)
    ensures !HasAnyRow(r, msgId, u)
  {
    if rows == [] then []
    else
      var keep := rows[0].messageId != msgId || rows[0].userId != u;
      var r := DeleteRow(rows[1..], msgId, u);
      assert forall x :: x in rows <==> x == rows[0] || x in rows[1..];
      (if keep then [rows[0]] else []) + r
  }

  lemma {:induction false} DeleteRowKeys(rows: seq<Participant>, msgId: string, u: string)
    requires UniqueKeys(rows)
    ensures UniqueKeys(DeleteRow(rows, msgId, u))
  {
    if rows != [] {
      TailKeys(rows);
      DeleteRowKeys(rows[1..], msgId, u);
      var r := DeleteRow(rows[1..], msgId, u);
      if rows[0].messageId != msgId || rows[0].userId != u {
        HeadKeyFresh(rows);
        ConsKeys(rows[0], r);
      } else {
        assert DeleteRow(rows, msgId, u) == r;
      }
    }
  }

  lemma TailKeys(rows: seq<Participant>)
    requires rows != [] && UniqueKeys(rows)
    ensures UniqueKeys(rows[1..])
  {
    forall i, j | 0 <= i < j < |rows[1..]|
      ensures rows[1..][i].messageId != rows[1..][j].messageId || rows[1..][i].userId != rows[1..][j].userId
    {
      assert rows[1..][i] == rows[i + 1] && rows[1..][j] == rows[j + 1];
    }
  }

  lemma HeadKeyFresh(rows: seq<Participant>)
    requires rows != [] && UniqueKeys(rows)
    ensures forall y :: y in rows[1..] ==> y.messageId != rows[0].messageId || y.userId != rows[0].userId
  {
    forall y | y in rows[1..] ensures y.messageId != rows[0].messageId || y.userId != rows[0].userId {
      var k :| 0 <= k < |rows[1..]| && rows[1..][k] == y;
      assert rows[k + 1] == y;
    }
  }

  lemma ConsKeys(x: Participant, r: seq<Participant>)
    requires UniqueKeys(r)
    requires forall y :: y in r ==> y.messageId != x.messageId || y.userId != x.userId
    ensures UniqueKeys([x] + r)
  {
    var all := [x] + r;
    forall i, j | 0 <= i < j < |all| ensures all[i].messageId != all[j].messageId || all[i].userId != all[j].userId {
      assert all[j] == r[j - 1];
      if i == 0 {
        assert r[j - 1] in r;
      } else {
        assert all[i] == r[i - 1];
      }
    }
  }
}
