/**
 * `cogs/autoresponder.py`: per-server trigger/response pairs in an SQLite
 * table. A message that equals a trigger (ignoring case and surrounding
 * space) gets the trigger's response with its placeholders filled in.
 *
 * Letters are folded as ASCII, as SQLite's `LOWER` does. The current date
 * and time are passed in as already formatted strings.
 */
module Autoresponder {
  import opened Common

  const PerPage := 5
  const MaxShown := 200
  const SeenLimit := 1000
  const SeenKept := 500

  /** A row of `autoresponses`. */
  datatype Row = Row(id: int, guild: int, trigger: string, response: string, createdAt: string, createdBy: int)

  // ---------------------------------------------------------------------------
  // Placeholders
  // ---------------------------------------------------------------------------

  /** `_format_response`: the five placeholders, replaced one after the other; text without a brace comes out unchanged. */
  function FormatResponse(s: string, mention: string, server: string, channel: string, date: string, time: string): (r: string)
    ensures NoBrace(s) ==> r == s
  {
    PlainKept(s, "{user}", mention);
    PlainKept(s, "{server}", server);
    PlainKept(s, "{channel}", channel);
    PlainKept(s, "{date}", date);
    PlainKept(s, "{time}", time);
    Replace(Replace(Replace(Replace(Replace(s, "{user}", mention), "{server}", server), "{channel}", channel),
                    "{date}", date), "{time}", time)
  }

  /** A placeholder cannot occur in text without a brace, so it is not replaced there. */
  lemma PlainKept(s: string, p: string, q: string)
    requires |p| > 0 && p[0] == '{'
    ensures NoBrace(s) ==> Replace(s, p, q) == s
  {
    if NoBrace(s) {
      NoCharNoOccurrence(s, p);
      ReplaceAbsent(s, p, q);
    }
  }

  /** `{user}` between plain text becomes the mention, and the text around it is kept. */
  lemma UserFilled(a: string, b: string, mention: string, server: string, channel: string, date: string, time: string)
    requires NoBrace(a) && NoBrace(b) && NoBrace(mention)
    ensures FormatResponse(a + "{user}" + b, mention, server, channel, date, time) == a + mention + b
  {
    var s := a + "{user}" + b;
    forall j | 0 <= j < |a|
      ensures !OccursAt(s, "{user}", j)
    {
      assert s[j] == a[j];
    }
    ReplaceFirst(a, "{user}", mention, b);
    NoCharNoOccurrence(b, "{user}");
    ReplaceAbsent(b, "{user}", mention);
    var t := a + mention + b;
    assert NoBrace(t) by {
      forall i | 0 <= i < |t|
        ensures t[i] != '{'
      {
        if i < |a| { assert t[i] == a[i]; }
        else if i < |a| + |mention| { assert t[i] == mention[i - |a|]; }
        else { assert t[i] == b[i - |a| - |mention|]; }
      }
    }
    NoCharNoOccurrence(t, "{server}");
    ReplaceAbsent(t, "{server}", server);
    NoCharNoOccurrence(t, "{channel}");
    ReplaceAbsent(t, "{channel}", channel);
    NoCharNoOccurrence(t, "{date}");
    ReplaceAbsent(t, "{date}", date);
    NoCharNoOccurrence(t, "{time}");
    ReplaceAbsent(t, "{time}", time);
  }

  // ---------------------------------------------------------------------------
  // Matching
  // ---------------------------------------------------------------------------

  /** What a message or a trigger is compared by: lower-cased, then stripped. */
  function Key(t: string): string
  {
    Strip(Lower(t))
  }

  /** The message is exactly the trigger, ignoring case and surrounding space. */
  predicate Matches(content: string, trigger: string)
  {
    Key(content) == Key(trigger)
  }

  function Keys(rows: seq<Row>): (r: seq<string>)
    ensures |r| == |rows| && forall i :: 0 <= i < |rows| ==> r[i] == Key(rows[i].trigger)
  {
    seq(|rows|, i requires 0 <= i < |rows| => Key(rows[i].trigger))
  }

  /** The first index from `k` on whose key is the message's and whose send succeeds. */
  function DeliveredFrom(keys: seq<string>, message: string, sent: nat -> bool, k: nat): (r: Option<nat>)
    requires k <= |keys|
    ensures r.Some? ==> k <= r.value < |keys| && keys[r.value] == message && sent(r.value)
    ensures r.Some? ==> forall j :: k <= j < r.value && keys[j] == message ==> !sent(j)
    ensures r.None? ==> forall j :: k <= j < |keys| && keys[j] == message ==> !sent(j)
    decreases |keys| - k
  {
    if k == |keys| then None
    else if keys[k] == message && sent(k) then Some(k)
    else DeliveredFrom(keys, message, sent, k + 1)
  }

  /**
   * The row whose response is delivered: the first matching one whose send
   * succeeds; earlier matching rows are those whose send failed.
   */
  function Delivered(rows: seq<Row>, content: string, sent: nat -> bool): (r: Option<nat>)
    ensures r.Some? ==> r.value < |rows| && Matches(content, rows[r.value].trigger) && sent(r.value)
    ensures r.Some? ==> forall j :: 0 <= j < r.value && Matches(content, rows[j].trigger) ==> !sent(j)
    ensures r.None? ==> forall j :: 0 <= j < |rows| && Matches(content, rows[j].trigger) ==> !sent(j)
  {
    DeliveredFrom(Keys(rows), Key(content), sent, 0)
  }

  /** The trigger loop with its `break`: matching rows are tried in id order until one send succeeds. */
  method Respond(rows: seq<Row>, content: string, sent: nat -> bool) returns (r: Option<nat>)
    ensures r == Delivered(rows, content, sent)
  {
    var message := Key(content);
    var keys := Keys(rows);
    var i := 0;
    while i < |rows|
      invariant 0 <= i <= |rows|
      invariant DeliveredFrom(keys, message, sent, i) == DeliveredFrom(keys, message, sent, 0)
      decreases |rows| - i
    {
      if keys[i] == message && sent(i) {
        return Some(i);
      }
      i := i + 1;
    }
    r := None;
  }

  // ---------------------------------------------------------------------------
  // Listing
  // ---------------------------------------------------------------------------

  /** A response as the list shows it: cut to 197 characters and "..." past 200. */
  function Shown(response: string): (r: string)
    ensures |response| <= MaxShown ==> r == response
    ensures |response| > MaxShown ==> |r| == MaxShown && r == response[..MaxShown - 3] + "..."
  {
    if |response| > MaxShown then response[..MaxShown - 3] + "..." else response
  }

  function Flatten(pages: seq<seq<Row>>): seq<Row>
  {
    if pages == [] then [] else Flatten(pages[..|pages| - 1]) + pages[|pages| - 1]
  }

  /**
   * The page loop of `/autoresponder list`: ceil(n/5) pages of five
   * (PerPage), in order, the last one possibly shorter, together holding
   * every row once.
   */
  method ListPages(rows: seq<Row>) returns (pages: seq<seq<Row>>)
    ensures |pages| == (|rows| + 4) / 5
    ensures Flatten(pages) == rows
    ensures forall p :: 0 <= p < |pages| ==> 1 <= |pages[p]| <= PerPage
    ensures forall p :: 0 <= p < |pages| - 1 ==> |pages[p]| == PerPage
  {
    var total := (|rows| + 4) / 5;
    pages := [];
    var page := 0;
    while page < total
      invariant 0 <= page <= total
      invariant |pages| == page
      invariant Flatten(pages) == rows[..Min(page * 5, |rows|)]
      invariant forall p :: 0 <= p < page ==> 1 <= |pages[p]| <= 5
      invariant forall p :: 0 <= p < page && p < total - 1 ==> |pages[p]| == 5
      decreases total - page
    {
      var start := page * 5;
      var end := Min(start + 5, |rows|);
      assert start < |rows|;
      assert page < total - 1 ==> end == start + 5;
      assert rows[..start] + rows[start..end] == rows[..end];
      var old_pages := pages;
      pages := pages + [rows[start..end]];
      assert pages[..|pages| - 1] == old_pages;
      page := page + 1;
      assert Min(page * 5, |rows|) == end;
    }
    assert rows[..|rows|] == rows;
  }

  // ---------------------------------------------------------------------------
  // The table
  // ---------------------------------------------------------------------------

  /** Ids ascend and stay below the next one, and within a server no two triggers are equal ignoring case. */
  predicate RowsValid(rows: seq<Row>, nextId: int)
  {
    && (forall i, j :: 0 <= i < j < |rows| ==> rows[i].id < rows[j].id)
    && (forall i :: 0 <= i < |rows| ==> rows[i].id < nextId)
    && (forall i, j :: 0 <= i < j < |rows| && rows[i].guild == rows[j].guild ==> Lower(rows[i].trigger) != Lower(rows[j].trigger))
  }

  /** Ids strictly increase along the rows. */
  predicate IdOrder(rows: seq<Row>)
  {
    forall i, j :: 0 <= i < j < |rows| ==> rows[i].id < rows[j].id
  }

  /** Selecting rows keeps them in id order. */
  lemma {:induction false} FilterIdOrder(rows: seq<Row>, keep: Row -> bool)
    ensures IdOrder(rows) ==> IdOrder(Filter(rows, keep))
  {
    if rows != [] && IdOrder(rows) {
      var rest := Filter(rows[1..], keep);
      FilterIdOrder(rows[1..], keep);
      assert IdOrder(rest);
      forall x | x in rest ensures rows[0].id < x.id {
        var k :| 0 <= k < |rows[1..]| && rows[1..][k] == x;
        assert rows[k + 1] == x;
      }
      if keep(rows[0]) {
        ConsIdOrder(rows[0], rest);
      }
    }
  }

  /** A row with a smaller id than all the others may go first. */
  lemma ConsIdOrder(x: Row, rest: seq<Row>)
    requires IdOrder(rest) && forall y :: y in rest ==> x.id < y.id
    ensures IdOrder([x] + rest)
  {
    var r := [x] + rest;
    forall i, j | 0 <= i < j < |r| ensures r[i].id < r[j].id {
      assert r[j] == rest[j - 1];
      if i > 0 {
        assert r[i] == rest[i - 1];
      }
    }
  }

  /** The rows with the one at `k` deleted. */
  function RemoveAt(rows: seq<Row>, k: nat): (r: seq<Row>)
    requires k < |rows|
    ensures |r| == |rows| - 1
    ensures forall j :: 0 <= j < |r| ==> r[j] == if j < k then rows[j] else rows[j + 1]
  {
    rows[..k] + rows[k + 1..]
  }

  /** Deleting a row keeps the table well formed, and leaves no other row of the server with that trigger. */
  lemma RemoveAtValid(rows: seq<Row>, nextId: int, k: nat)
    requires RowsValid(rows, nextId) && k < |rows|
    ensures RowsValid(RemoveAt(rows, k), nextId)
    ensures forall j :: 0 <= j < |rows| - 1 ==>
              !(RemoveAt(rows, k)[j].guild == rows[k].guild && Lower(RemoveAt(rows, k)[j].trigger) == Lower(rows[k].trigger))
  {
    var r := RemoveAt(rows, k);
    forall j | 0 <= j < |r|
      ensures !(r[j].guild == rows[k].guild && Lower(r[j].trigger) == Lower(rows[k].trigger))
    {
      if j >= k {
        assert r[j] == rows[j + 1];
      }
    }
  }

  /** Appending a row with the next id and an unused trigger keeps the table well formed. */
  lemma AppendValid(rows: seq<Row>, nextId: int, x: Row)
    requires RowsValid(rows, nextId) && x.id == nextId
    requires forall i :: 0 <= i < |rows| && rows[i].guild == x.guild ==> Lower(rows[i].trigger) != Lower(x.trigger)
    ensures RowsValid(rows + [x], nextId + 1)
  {
    var r := rows + [x];
    assert forall i :: 0 <= i < |rows| ==> r[i] == rows[i];
  }

  // ---------------------------------------------------------------------------
  // The cog
  // ---------------------------------------------------------------------------

  datatype AddReply = Added | TriggerExists | AddFailed
  datatype RemoveReply = Removed | NoSuchTrigger | RemoveFailed

  /** Any finite set of integers has a subset of every smaller size. */
  lemma {:induction false} SubsetOfSize(s: set<int>, n: nat)
    requires n <= |s|
    ensures exists t :: t <= s && |t| == n
    decreases n
  {
    if n == 0 {
      var e: set<int> := {};
      assert e <= s && |e| == 0;
    } else {
      NonEmptyHasElement(s);
      var x :| x in s;
      SubsetOfSize(s - {x}, n - 1);
      var t :| t <= s - {x} && |t| == n - 1;
      assert t + {x} <= s && |t + {x}| == n;
    }
  }

  class AutoResponderCog {
    /** The `autoresponses` table, in id order. */
    var rows: seq<Row>
    /** The next AUTOINCREMENT id. */
    var nextId: int
    /** `processed_messages`. */
    var processed: set<int>

    predicate Valid()
      reads this
    {
      RowsValid(rows, nextId)
    }

    constructor()
      ensures Valid() && rows == [] && processed == {} && nextId == 1
    {
      rows := [];
      nextId := 1;
      processed := {};
    }

    /** `_get_guild_autoresponses`: the server's rows in id order, or none when the database fails. */
    function GuildRows(g: int, dbOk: bool): (r: seq<Row>)
      reads this
      ensures forall x :: x in r <==> dbOk && x in rows && x.guild == g
      ensures Valid() ==> IdOrder(r)
    {
      if dbOk then
        FilterIdOrder(rows, (x: Row) => x.guild == g);
        Filter(rows, (x: Row) => x.guild == g)
      else []
    }

    /** The server already has the trigger, ignoring case. */
    predicate Clash(g: int, trigger: string)
      reads this
    {
      exists i :: 0 <= i < |rows| && rows[i].guild == g && Lower(rows[i].trigger) == Lower(trigger)
    }

    /** `_add_autoresponse`: refused when the server has the trigger ignoring case; otherwise a new row with the next id. */
    method AddAutoresponse(g: int, trigger: string, response: string, user: int, now: string, dbOk: bool)
      returns (reply: AddReply)
      requires Valid()
      modifies this
      ensures Valid() && processed == old(processed)
      ensures reply == Added <==> dbOk && !old(Clash(g, trigger))
      ensures reply == TriggerExists <==> dbOk && old(Clash(g, trigger))
      ensures reply == Added ==> rows == old(rows) + [Row(old(nextId), g, trigger, response, now, user)]
      ensures reply != Added ==> rows == old(rows)
    {
      if !dbOk {
        return AddFailed;
      }
      if Clash(g, trigger) {
        return TriggerExists;
      }
      var x := Row(nextId, g, trigger, response, now, user);
      AppendValid(rows, nextId, x);
      rows := rows + [x];
      nextId := nextId + 1;
      reply := Added;
    }

    /** `_remove_autoresponse`: the server's row with the trigger ignoring case goes, and nothing else. */
    method RemoveAutoresponse(g: int, trigger: string, dbOk: bool) returns (reply: RemoveReply)
      requires Valid()
      modifies this
      ensures Valid() && processed == old(processed) && nextId == old(nextId)
      ensures reply == Removed <==> dbOk && old(Clash(g, trigger))
      ensures reply == NoSuchTrigger <==> dbOk && !old(Clash(g, trigger))
      ensures reply == Removed ==> exists k :: 0 <= k < |old(rows)| && rows == RemoveAt(old(rows), k)
                                              && old(rows)[k].guild == g && Lower(old(rows)[k].trigger) == Lower(trigger)
      ensures reply == Removed ==> !Clash(g, trigger)
      ensures reply != Removed ==> rows == old(rows)
    {
      if !dbOk {
        return RemoveFailed;
      }
      var key := Lower(trigger);
      var k := FirstWhere(rows, (x: Row) => x.guild == g && Lower(x.trigger) == key);
      if k.None? {
        return NoSuchTrigger;
      }
      var i := k.value;
      RemoveAtValid(rows, nextId, i);
      rows := RemoveAt(rows, i);
      reply := Removed;
    }

    /** The dedupe set after a message: its id added, and cut to 500 of its ids once above 1000. */
    method Remember(id: int)
      modifies this
      ensures rows == old(rows) && nextId == old(nextId)
      ensures |old(processed) + {id}| <= SeenLimit ==> processed == old(processed) + {id}
      ensures |old(processed) + {id}| > SeenLimit ==> processed <= old(processed) + {id} && |processed| == SeenKept
    {
      processed := processed + {id};
      if |processed| > SeenLimit {
        SubsetOfSize(processed, SeenKept);
        var kept :| kept <= processed && |kept| == SeenKept;
        processed := kept;
      }
    }

    /**
     * `on_message`: bots, direct messages and already seen ids are
     * skipped; a server without rows (or whose rows cannot be read)
     * returns before the id is remembered; otherwise the first matching
     * row that can be sent answers, and the id is remembered.
     */
    method OnMessage(id: int, bot: bool, guild: Option<int>, content: string, dbOk: bool, sent: nat -> bool)
      returns (answered: Option<Row>)
      requires Valid()
      modifies this
      ensures Valid() && rows == old(rows)
      ensures bot || guild.None? || id in old(processed) ==> answered.None? && processed == old(processed)
      ensures guild.Some? && old(GuildRows(guild.value, dbOk)) == [] ==> answered.None? && processed == old(processed)
      ensures answered.Some? ==> !bot && guild.Some? && id !in old(processed)
                                 && var d := Delivered(GuildRows(guild.value, dbOk), content, sent);
                                    d.Some? && answered.value == GuildRows(guild.value, dbOk)[d.value]
      ensures answered.Some? ==> answered.value in rows && answered.value.guild == guild.value
                                 && Matches(content, answered.value.trigger)
      ensures !bot && guild.Some? && id !in old(processed) && old(GuildRows(guild.value, dbOk)) != [] ==>
                answered == (var d := Delivered(GuildRows(guild.value, dbOk), content, sent);
                             if d.Some? then Some(GuildRows(guild.value, dbOk)[d.value]) else None)
                && (|old(processed) + {id}| <= SeenLimit ==> processed == old(processed) + {id})
                && (|old(processed) + {id}| > SeenLimit ==> processed <= old(processed) + {id} && |processed| == SeenKept)
      ensures nextId == old(nextId)
    {
      if bot || guild.None? || id in processed {
        return None;
      }
      var entries := GuildRows(guild.value, dbOk);
      if entries == [] {
        return None;
      }
      var r := Respond(entries, content, sent);
      answered := if r.Some? then Some(entries[r.value]) else None;
      Remember(id);
    }
  }
}
