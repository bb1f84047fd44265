/**
 * `cogs/steal.py`: copying custom emojis from a replied-to message into
 * the server. The emoji tokens of the message are parsed into a CDN URL
 * and a name, each is fetched and created under a name not yet used by
 * the server, and a report of how many were created is shown.
 *
 * The HTTP status of each fetch, whether each creation succeeds, the
 * bot's emoji permission and the server's emoji names are parameters.
 */
module Steal {
  import opened Common

  const CdnPrefix := "https://cdn.discordapp.com/emojis/"
  const MaxUrl := 256000

  // ---------------------------------------------------------------------------
  // Tokens
  // ---------------------------------------------------------------------------

  predicate IsEmojiToken(w: string)
  {
    StartsWith(w, "<:") || StartsWith(w, "<a:")
  }

  /** `extract_emojis`: the whitespace-separated words that start with `<:` or `<a:`, in order. */
  function ExtractEmojis(content: string): (r: seq<string>)
    ensures |r| <= |SplitWords(content)|
    ensures forall w :: w in r <==> w in SplitWords(content) && IsEmojiToken(w)
  {
    Filter(SplitWords(content), IsEmojiToken)
  }

  /** Each extracted token is a whole word, without whitespace, opening with '<'. */
  lemma ExtractedShape(content: string)
    ensures forall w :: w in ExtractEmojis(content) ==> |w| >= 2 && NoSpace(w) && w[0] == '<'
  {
    forall w | w in ExtractEmojis(content)
      ensures |w| >= 2 && NoSpace(w) && w[0] == '<'
    {
      var words := SplitWords(content);
      var k :| 0 <= k < |words| && words[k] == w;
      assert w[..2] == "<:" || w[..2] == "<a";
    }
  }

  /** Python's `s[:-1]`. */
  function DropLast(s: string): (r: string)
    ensures |s| > 0 ==> s == r + [s[|s| - 1]]
    ensures |s| == 0 ==> r == []
  {
    if |s| == 0 then [] else s[..|s| - 1]
  }

  /** A well-formed token `<:name:id>` (or `<a:name:id>`) splits into its three fields. */
  lemma SplitToken(head: string, name: string, tail: string)
    requires ':' !in head && ':' !in name && ':' !in tail
    ensures SplitOn(head + [':'] + name + [':'] + tail, ':') == [head, name, tail]
  {
    var rest := name + [':'] + tail;
    SeqAssoc(head + [':'] + name, [':'], tail);
    SeqAssoc(head + [':'], name, [':'] + tail);
    SeqAssoc(name, [':'], tail);
    assert SplitOn(tail, ':') == [tail];
    SplitOnStep(name, ':', tail);
    assert SplitOn(rest, ':') == [name, tail];
    SplitOnStep(head, ':', rest);
  }

  /** What the loop of `steal_emoji` derives from a token. */
  datatype Emoji = Emoji(url: string, name: string)

  function Url(id: string, animated: bool): string
  {
    CdnPrefix + id + "." + (if animated then "gif" else "png")
  }

  /**
   * The URL and name as written: the id is the third ':' field without its
   * last character (the '>'), and the name is the second field without
   * its last character. A token with fewer than three fields raises
   * `IndexError`, which ends the command.
   */
  function ParseAsWritten(token: string): Option<Emoji>
  {
    var fields := SplitOn(token, ':');
    if |fields| < 3 then None
    else Some(Emoji(Url(DropLast(fields[2]), StartsWith(token, "<a:")), DropLast(fields[1])))
  }

  /**
   * The same with the name field kept whole, as the emoji is called: it
   * fails on the same tokens, gives the same URL, and its name is a whole
   * ':' field whose last character is all the name as written lacks.
   */
  function Parse(token: string): (r: Option<Emoji>)
    ensures r.None? <==> ParseAsWritten(token).None?
    ensures r.Some? ==> r.value.url == ParseAsWritten(token).value.url
                        && DropLast(r.value.name) == ParseAsWritten(token).value.name
                        && ':' !in r.value.name
  {
    var fields := SplitOn(token, ':');
    if |fields| < 3 then None
    else Some(Emoji(Url(DropLast(fields[2]), StartsWith(token, "<a:")), fields[1]))
  }

  /** A token with three ':' fields: the parse takes its URL from the third and its name from the second. */
  lemma ParseFields(head: string, name: string, tail: string)
    requires ':' !in head && ':' !in name && ':' !in tail
    ensures var t := head + [':'] + name + [':'] + tail;
            && Parse(t) == Some(Emoji(Url(DropLast(tail), StartsWith(t, "<a:")), name))
            && ParseAsWritten(t) == Some(Emoji(Url(DropLast(tail), StartsWith(t, "<a:")), DropLast(name)))
  {
    SplitToken(head, name, tail);
  }

  /** The URL ends in .gif exactly for tokens opening with `<a:`. */
  lemma AnimatedPrefix(animated: bool, rest: string)
    ensures var head := if animated then "<a" else "<";
            StartsWith(head + [':'] + rest, "<a:") <==> animated
  {
    var t := (if animated then "<a" else "<") + [':'] + rest;
    if animated {
      assert t[..3] == "<a:";
    } else {
      assert t[1] == ':';
    }
  }

  /** Every well-formed token `<:name:id>` or `<a:name:id>` yields its own id, its own name and the right extension. */
  lemma ParseToken(animated: bool, name: string, id: string)
    requires ':' !in name && ':' !in id
    ensures var head := if animated then "<a" else "<";
            Parse(head + [':'] + name + [':'] + id + ">") == Some(Emoji(Url(id, animated), name))
  {
    var head := if animated then "<a" else "<";
    var tail := id + ">";
    var front := head + [':'] + name + [':'];
    SeqAssoc(front, id, ">");
    ParseFields(head, name, tail);
    var h := head + [':'];
    SeqAssoc(h + name, [':'], tail);
    SeqAssoc(h, name, [':'] + tail);
    SeqAssoc(name, [':'], tail);
    AnimatedPrefix(animated, name + [':'] + tail);
    assert DropLast(tail) == id;
  }

  /** As written, a stolen emoji loses the last letter of its name: `<:cat:123>` is created as `ca`. */
  lemma NameLosesLastLetter(animated: bool, name: string, id: string)
    requires ':' !in name && ':' !in id && name != []
    ensures var t := (if animated then "<a" else "<") + [':'] + name + [':'] + id + ">";
            && ParseAsWritten(t).Some? && ParseAsWritten(t).value.name == name[..|name| - 1]
            && Parse(t).Some? && Parse(t).value.name == name
  {
    var head := if animated then "<a" else "<";
    var tail := id + ">";
    assert head + [':'] + name + [':'] + id + ">" == head + [':'] + name + [':'] + tail;
    ParseFields(head, name, tail);
  }

  // ---------------------------------------------------------------------------
  // `get_unique_emoji_name`
  // ---------------------------------------------------------------------------

  /** The k-th candidate: the name itself, then `name_1`, `name_2`, ... */
  function Candidate(name: string, k: nat): string
  {
    if k == 0 then name else name + "_" + NatToString(k)
  }

  lemma CandidatesDistinct(name: string, i: nat, j: nat)
    requires i < j
    ensures Candidate(name, i) != Candidate(name, j)
  {
    if i == 0 {
      assert |Candidate(name, j)| > |name|;
    } else {
      NatToStringRoundTrip(i);
      NatToStringRoundTrip(j);
      assert Candidate(name, i)[|name| + 1..] == NatToString(i);
      assert Candidate(name, j)[|name| + 1..] == NatToString(j);
    }
  }

  /** The first `c` candidates, as a set. */
  function Tried(name: string, c: nat): set<string>
  {
    if c == 0 then {} else Tried(name, c - 1) + {Candidate(name, c - 1)}
  }

  lemma {:induction false} TriedFacts(name: string, c: nat)
    ensures |Tried(name, c)| == c
    ensures forall x :: x in Tried(name, c) ==> exists j :: 0 <= j < c && x == Candidate(name, j)
  {
    if c > 0 {
      var p := c - 1;
      TriedFacts(name, p);
      forall x | x in Tried(name, p)
        ensures x != Candidate(name, p)
      {
        var j :| 0 <= j < p && x == Candidate(name, j);
        CandidatesDistinct(name, j, p);
      }
    }
  }

  /** The server cannot hold more used candidates than it has names. */
  lemma UsedBound(name: string, c: nat, existing: set<string>)
    requires forall j :: 0 <= j < c ==> Candidate(name, j) in existing
    ensures c <= |existing|
  {
    TriedFacts(name, c);
    SubsetCard(Tried(name, c), existing);
  }

  function FreeFrom(name: string, existing: set<string>, k: nat): (r: nat)
    requires forall j :: 0 <= j < k ==> Candidate(name, j) in existing
    ensures k <= r && Candidate(name, r) !in existing
    ensures forall j :: 0 <= j < r ==> Candidate(name, j) in existing
    decreases |existing| - k
  {
    if Candidate(name, k) !in existing then k
    else
      UsedBound(name, k + 1, existing);
      FreeFrom(name, existing, k + 1)
  }

  /** The index of the first candidate the server does not use. */
  function FreeIndex(name: string, existing: set<string>): (r: nat)
    ensures Candidate(name, r) !in existing
    ensures forall j :: 0 <= j < r ==> Candidate(name, j) in existing
  {
    FreeFrom(name, existing, 0)
  }

  /** The name itself when unused, otherwise `name_k` for the smallest k >= 1 not in use. */
  lemma UniqueNameMeaning(name: string, existing: set<string>)
    ensures name !in existing ==> Candidate(name, FreeIndex(name, existing)) == name
    ensures name in existing ==> exists k :: 1 <= k && Candidate(name, FreeIndex(name, existing)) == name + "_" + NatToString(k)
                                             && (forall j :: 1 <= j < k ==> name + "_" + NatToString(j) in existing)
                                             && name + "_" + NatToString(k) !in existing
  {
    var k := FreeIndex(name, existing);
    if name in existing {
      assert Candidate(name, 0) == name;
      assert k != 0;
      forall j | 1 <= j < k
        ensures name + "_" + NatToString(j) in existing
      {
        assert Candidate(name, j) in existing;
      }
    }
  }

  /** The loop bumping `counter` until the name is free. */
  method UniqueEmojiName(name: string, existing: set<string>) returns (unique: string)
    ensures unique == Candidate(name, FreeIndex(name, existing))
    ensures unique !in existing
  {
    unique := name;
    var counter: nat := 1;
    while unique in existing
      invariant 1 <= counter <= |existing| + 1
      invariant unique == Candidate(name, counter - 1)
      invariant forall j :: 0 <= j < counter - 1 ==> Candidate(name, j) in existing
      invariant FreeFrom(name, existing, counter - 1) == FreeIndex(name, existing)
      decreases |existing| + 1 - counter
    {
      UsedBound(name, counter, existing);
      unique := name + "_" + NatToString(counter);
      counter := counter + 1;
    }
  }

  // ---------------------------------------------------------------------------
  // `add_emoji` and the report of `steal_emoji`
  // ---------------------------------------------------------------------------

  /** What `add_emoji` did. Every failure sends a message and returns it. */
  datatype AddResult = Created(name: string) | TooLarge | FetchFailed(status: int) | NoPermission | CreateFailed

  /** `add_emoji` given the fetch status, the bot's permission and whether the creation goes through. */
  function AddEmoji(url: string, name: string, status: int, manage: bool, createOk: bool, existing: set<string>): (r: AddResult)
    ensures r.Created? <==> |url| <= MaxUrl && status == 200 && manage && createOk
    ensures r.Created? ==> r.name !in existing && r.name == Candidate(name, FreeIndex(name, existing))
    ensures r.FetchFailed? ==> r.status == status && status != 200
  {
    if |url| > MaxUrl then TooLarge
    else if status != 200 then FetchFailed(status)
    else if !manage then NoPermission
    else if createOk then Created(Candidate(name, FreeIndex(name, existing)))
    else CreateFailed
  }

  method AddEmojiCall(url: string, name: string, status: int, manage: bool, createOk: bool, existing: set<string>)
    returns (r: AddResult)
    ensures r == AddEmoji(url, name, status, manage, createOk, existing)
  {
    if |url| > MaxUrl {
      return TooLarge;
    }
    if status != 200 {
      return FetchFailed(status);
    }
    if !manage {
      return NoPermission;
    }
    var unique := UniqueEmojiName(name, existing);
    r := if createOk then Created(unique) else CreateFailed;
  }

  /**
   * Python truthiness of what `add_emoji` returns: the new emoji, or on
   * every failure the `Message` that `ctx.send` returned. Both are truthy.
   */
  predicate Truthy(r: AddResult)
  {
    match r
    case Created(_) => true
    case TooLarge => true
    case FetchFailed(_) => true
    case NoPermission => true
    case CreateFailed => true
  }

  /** The results of the first emojis, or None once a token fails to parse. */
  function Results(emojis: seq<string>, parse: string -> Option<Emoji>, status: nat -> int, manage: bool,
                   created: nat -> bool, existing: set<string>): (r: Option<seq<AddResult>>)
    ensures r.Some? ==> |r.value| == |emojis|
    decreases |emojis|
  {
    if emojis == [] then Some([])
    else
      var n := |emojis| - 1;
      var prev := Results(emojis[..n], parse, status, manage, created, existing);
      var e := parse(emojis[n]);
      if prev.None? || e.None? then None
      else Some(prev.value + [AddEmoji(e.value.url, e.value.name, status(n), manage, created(n), existing)])
  }

  /** Whether an emoji was created. */
  predicate WasCreated(r: AddResult) { r.Created? }

  /** One more emoji: its token fails to parse and the run fails, or its result is appended. */
  lemma ResultsStep(emojis: seq<string>, parse: string -> Option<Emoji>, status: nat -> int, manage: bool,
                    created: nat -> bool, existing: set<string>, i: nat, rs: seq<AddResult>)
    requires i < |emojis| && Results(emojis[..i], parse, status, manage, created, existing) == Some(rs)
    ensures parse(emojis[i]).None? ==> Results(emojis[..i + 1], parse, status, manage, created, existing).None?
    ensures var e := parse(emojis[i]);
            e.Some? ==> Results(emojis[..i + 1], parse, status, manage, created, existing) ==
                        Some(rs + [AddEmoji(e.value.url, e.value.name, status(i), manage, created(i), existing)])
  {
    assert emojis[..i + 1][..i] == emojis[..i];
    assert emojis[..i + 1][i] == emojis[i];
  }

  /** Counting over one more result. */
  lemma CountStep(rs: seq<AddResult>, x: AddResult, p: AddResult -> bool)
    ensures CountWhere(rs + [x], p) == CountWhere(rs, p) + (if p(x) then 1 else 0)
  {
    assert (rs + [x])[..|rs|] == rs;
  }

  function CountWhere(rs: seq<AddResult>, p: AddResult -> bool): (n: nat)
    ensures n <= |rs|
  {
    if rs == [] then 0 else CountWhere(rs[..|rs| - 1], p) + (if p(rs[|rs| - 1]) then 1 else 0)
  }

  lemma {:induction false} CountAll(rs: seq<AddResult>, p: AddResult -> bool)
    requires forall k :: 0 <= k < |rs| ==> p(rs[k])
    ensures CountWhere(rs, p) == |rs|
  {
    if rs != [] {
      CountAll(rs[..|rs| - 1], p);
    }
  }

  lemma {:induction false} CountNone(rs: seq<AddResult>, p: AddResult -> bool)
    requires forall k :: 0 <= k < |rs| ==> !p(rs[k])
    ensures CountWhere(rs, p) == 0
  {
    if rs != [] {
      CountNone(rs[..|rs| - 1], p);
    }
  }

  /**
   * The loop of `steal_emoji` for a given parse of the tokens and a given
   * test of which results the counter counts: None when a token fails to
   * parse; otherwise the reported (added, total).
   */
  method StealLoop(emojis: seq<string>, parse: string -> Option<Emoji>, counts: AddResult -> bool, status: nat -> int,
                   manage: bool, created: nat -> bool, existing: set<string>)
    returns (report: Option<(int, int)>)
    ensures var rs := Results(emojis, parse, status, manage, created, existing);
            report == if rs.None? then None else Some((CountWhere(rs.value, counts), |emojis|))
  {
    var added: nat := 0;
    ghost var rs: seq<AddResult> := [];
    var i := 0;
    while i < |emojis|
      invariant 0 <= i <= |emojis|
      invariant Results(emojis[..i], parse, status, manage, created, existing) == Some(rs)
      invariant added == CountWhere(rs, counts)
    {
      ResultsStep(emojis, parse, status, manage, created, existing, i, rs);
      var e := parse(emojis[i]);
      if e.None? {
        ResultsStayNone(emojis, parse, status, manage, created, existing, i + 1);
        return None;
      }
      var result := AddEmojiCall(e.value.url, e.value.name, status(i), manage, created(i), existing);
      CountStep(rs, result, counts);
      rs := rs + [result];
      if counts(result) {
        added := added + 1;
      }
      i := i + 1;
    }
    assert emojis[..i] == emojis;
    report := Some((added, |emojis|));
  }

  /** As written, the counter goes up on every truthy result. */
  method StealEmojiAsWritten(emojis: seq<string>, status: nat -> int, manage: bool, created: nat -> bool, existing: set<string>)
    returns (report: Option<(int, int)>)
    ensures var rs := Results(emojis, ParseAsWritten, status, manage, created, existing);
            report == if rs.None? then None else Some((CountWhere(rs.value, Truthy), |emojis|))
  {
    report := StealLoop(emojis, ParseAsWritten, Truthy, status, manage, created, existing);
  }

  /** Once a token fails to parse, every longer run fails too. */
  lemma {:induction false} ResultsStayNone(emojis: seq<string>, parse: string -> Option<Emoji>, status: nat -> int, manage: bool,
                                          created: nat -> bool, existing: set<string>, n: nat)
    requires n <= |emojis| && Results(emojis[..n], parse, status, manage, created, existing).None?
    ensures Results(emojis, parse, status, manage, created, existing).None?
    decreases |emojis| - n
  {
    if n < |emojis| {
      assert emojis[..n + 1][..n] == emojis[..n];
      ResultsStayNone(emojis, parse, status, manage, created, existing, n + 1);
    } else {
      assert emojis[..n] == emojis;
    }
  }

  /** As written, the report claims every emoji was created, even when every fetch failed. */
  lemma FailuresCounted(emojis: seq<string>, status: nat -> int, manage: bool, created: nat -> bool, existing: set<string>)
    requires Results(emojis, ParseAsWritten, status, manage, created, existing).Some?
    ensures var rs := Results(emojis, ParseAsWritten, status, manage, created, existing).value;
            CountWhere(rs, Truthy) == |emojis|
  {
    var rs := Results(emojis, ParseAsWritten, status, manage, created, existing).value;
    CountAll(rs, Truthy);
  }

  /** The report counts only the emojis that were created. */
  method StealEmoji(emojis: seq<string>, status: nat -> int, manage: bool, created: nat -> bool, existing: set<string>)
    returns (report: Option<(int, int)>)
    ensures var rs := Results(emojis, Parse, status, manage, created, existing);
            report == if rs.None? then None else Some((CountWhere(rs.value, WasCreated), |emojis|))
  {
    report := StealLoop(emojis, Parse, WasCreated, status, manage, created, existing);
  }

  /** With the corrected count, a run in which no fetch succeeds reports none created. */
  lemma NoFetchNoneCreated(emojis: seq<string>, status: nat -> int, manage: bool, created: nat -> bool, existing: set<string>)
    requires forall k :: 0 <= k < |emojis| ==> status(k) != 200
    requires Results(emojis, Parse, status, manage, created, existing).Some?
    ensures CountWhere(Results(emojis, Parse, status, manage, created, existing).value, WasCreated) == 0
  {
    ResultsNoFetch(emojis, Parse, status, manage, created, existing);
    CountNone(Results(emojis, Parse, status, manage, created, existing).value, WasCreated);
  }

  lemma {:induction false} ResultsNoFetch(emojis: seq<string>, parse: string -> Option<Emoji>, status: nat -> int, manage: bool,
                                         created: nat -> bool, existing: set<string>)
    requires forall k :: 0 <= k < |emojis| ==> status(k) != 200
    requires Results(emojis, parse, status, manage, created, existing).Some?
    ensures var rs := Results(emojis, parse, status, manage, created, existing).value;
            forall k :: 0 <= k < |rs| ==> !rs[k].Created?
    decreases |emojis|
  {
    if emojis != [] {
      ResultsNoFetch(emojis[..|emojis| - 1], parse, status, manage, created, existing);
    }
  }
}
