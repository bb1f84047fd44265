/*
 * Shared vocabulary of the bot model: optional values and results, the
 * handful of Python string operations the cogs rely on (restricted to
 * ASCII), decimal conversion and duplicate-free sequences.
 */
module Common {

  datatype Option<T> = None | Some(value: T)

  datatype Result<T> = Ok(value: T) | Err(error: string)
  {
    predicate IsOk() { Ok? }
  }

  function Min(a: int, b: int): int { if a <= b then a else b }
  function Max(a: int, b: int): int { if a >= b then a else b }

  /** Python's `min(max(v, lo), hi)` for `lo <= hi`. */
  function Clamp(v: int, lo: int, hi: int): (r: int)
    requires lo <= hi
    ensures lo <= r <= hi
    ensures lo <= v <= hi ==> r == v
    ensures v < lo ==> r == lo
    ensures v > hi ==> r == hi
  {
    if v < lo then lo else if v > hi then hi else v
  }

  // ---------------------------------------------------------------
  // Characters
  // ---------------------------------------------------------------

  predicate IsDigit(c: char) { '0' <= c <= '9' }

  predicate AllDigits(s: string) { forall i :: 0 <= i < |s| ==> IsDigit(s[i]) }

  /** Python's `str.isdigit()` on ASCII text: non-empty and only digits. */
  predicate IsDigitString(s: string) { |s| > 0 && AllDigits(s) }

  /** The whitespace characters Python's `str.split()`/`strip()` remove (ASCII part). */
  predicate IsSpace(c: char)
  {
    c == ' ' || c == '\t' || c == '\n' || c == '\r' || c == '\U{0B}' || c == '\U{0C}'
    || '\U{1C}' <= c <= '\U{1F}'
  }

  predicate NoSpace(s: string) { forall i :: 0 <= i < |s| ==> !IsSpace(s[i]) }

  function LowerChar(c: char): char
  {
    if 'A' <= c <= 'Z' then (c as int + 32) as char else c
  }

  /** Python's `str.lower()` on ASCII letters. */
  function Lower(s: string): (r: string)
    ensures |r| == |s|
    ensures forall i :: 0 <= i < |s| ==> r[i] == LowerChar(s[i])
  {
    if s == [] then [] else [LowerChar(s[0])] + Lower(s[1..])
  }

  lemma LowerIdempotent(s: string)
    ensures Lower(Lower(s)) == Lower(s)
  {
  }

  // ---------------------------------------------------------------
  // Decimal numbers
  // ---------------------------------------------------------------

  function DigitValue(c: char): nat
    requires IsDigit(c)
  {
    c as int - '0' as int
  }

  function DigitChar(d: nat): (c: char)
    requires d < 10
    ensures IsDigit(c) && DigitValue(c) == d
  {
    ('0' as int + d) as char
  }

  /** The value of a run of decimal digits (most significant first). */
  function DigitsValue(s: string): nat
    requires AllDigits(s)
  {
    if s == [] then 0 else DigitsValue(s[..|s| - 1]) * 10 + DigitValue(s[|s| - 1])
  }

  /** Python's `str(n)` for a natural number. */
  function NatToString(n: nat): (r: string)
    ensures IsDigitString(r)
    ensures r[0] == '0' ==> n == 0
    decreases n
  {
    if n < 10 then [DigitChar(n)] else NatToString(n / 10) + [DigitChar(n % 10)]
  }

  lemma {:induction false} NatToStringRoundTrip(n: nat)
    ensures DigitsValue(NatToString(n)) == n
    decreases n
  {
    if n >= 10 {
      var s := NatToString(n / 10);
      NatToStringRoundTrip(n / 10);
      var r := s + [DigitChar(n % 10)];
      assert r[..|r| - 1] == s;
    }
  }

  /** Python's `str(i)` for an integer. */
  function IntToString(i: int): (r: string)
    ensures |r| > 0
  {
    if i < 0 then "-" + NatToString(-i) else NatToString(i)
  }

  /** An optional sign followed by at least one digit, nothing else. */
  function ParseSigned(t: string): (r: Option<int>)
  {
    if |t| > 0 && (t[0] == '-' || t[0] == '+') then
      if IsDigitString(t[1..]) then
        Some(if t[0] == '-' then -(DigitsValue(t[1..]) as int) else DigitsValue(t[1..]))
      else None
    else if IsDigitString(t) then Some(DigitsValue(t))
    else None
  }

  /**
   * Python's `int(s)` on a string: surrounding whitespace, an optional sign
   * and at least one decimal digit; anything else is a ValueError (None).
   */
  function ParseInt(s: string): (r: Option<int>)
  {
    ParseSigned(Strip(s))
  }

  lemma ParseIntOfNat(n: nat)
    ensures ParseInt(NatToString(n)) == Some(n as int)
  {
    var s := NatToString(n);
    DigitsNoSpace(s);
    StripNoSpace(s);
    NatToStringRoundTrip(n);
    ParseSignedDigits(s);
  }

  lemma DigitsNoSpace(d: string)
    requires AllDigits(d)
    ensures NoSpace(d)
  {
    forall k | 0 <= k < |d| ensures !IsSpace(d[k]) {
      assert IsDigit(d[k]);
    }
  }

  lemma ParseSignedDigits(d: string)
    requires IsDigitString(d)
    ensures ParseSigned(d) == Some(DigitsValue(d) as int)
  {
    assert IsDigit(d[0]);
  }

  lemma NegativeNoSpace(d: string)
    requires IsDigitString(d)
    ensures NoSpace("-" + d)
  {
    var s := "-" + d;
    forall k | 0 <= k < |s| ensures !IsSpace(s[k]) {
      if k > 0 { assert s[k] == d[k - 1]; assert IsDigit(d[k - 1]); }
    }
  }

  lemma ParseSignedNegative(d: string)
    requires IsDigitString(d)
    ensures ParseSigned("-" + d) == Some(-(DigitsValue(d) as int))
  {
    var s := "-" + d;
    assert s[0] == '-';
    assert s[1..] == d;
  }

  lemma ParseIntOfNegative(n: nat)
    ensures ParseInt("-" + NatToString(n)) == Some(-(n as int))
  {
    var d := NatToString(n);
    NegativeNoSpace(d);
    StripNoSpace("-" + d);
    NatToStringRoundTrip(n);
    ParseSignedNegative(d);
  }

  lemma ParseIntOfInt(i: int)
    ensures ParseInt(IntToString(i)) == Some(i)
  {
    if i < 0 {
      var n: nat := -i;
      var t := IntToString(i);
      assert t == "-" + NatToString(n);
      ParseIntOfNegative(n);
      assert ParseInt(t) == Some(-(n as int));
    } else {
      var n: nat := i;
      var t := IntToString(i);
      assert t == NatToString(n);
      ParseIntOfNat(n);
      assert ParseInt(t) == Some(n as int);
    }
  }

  // ---------------------------------------------------------------
  // Strip and split
  // ---------------------------------------------------------------

  /** Number of leading whitespace characters. */
  function LeadingSpace(s: string): (n: nat)
    ensures n <= |s|
    ensures forall i :: 0 <= i < n ==> IsSpace(s[i])
    ensures n < |s| ==> !IsSpace(s[n])
  {
    if s == [] || !IsSpace(s[0]) then 0 else 1 + LeadingSpace(s[1..])
  }

  /** Number of trailing whitespace characters. */
  function TrailingSpace(s: string): (n: nat)
    ensures n <= |s|
    ensures forall i :: |s| - n <= i < |s| ==> IsSpace(s[i])
    ensures n < |s| ==> !IsSpace(s[|s| - 1 - n])
  {
    if s == [] || !IsSpace(s[|s| - 1]) then 0 else 1 + TrailingSpace(s[..|s| - 1])
  }

  /** Python's `str.strip()`: drop leading and trailing whitespace. */
  function Strip(s: string): (r: string)
    ensures r == [] || (!IsSpace(r[0]) && !IsSpace(r[|r| - 1]))
    ensures exists i, j :: 0 <= i <= j <= |s| && r == s[i..j]
    ensures |r| <= |s|
  {
    var a := LeadingSpace(s);
    var t := s[a..];
    var b := TrailingSpace(t);
    assert t[..|t| - b] == s[a..|s| - b];
    t[..|t| - b]
  }

  /** A character of a stripped and truncated text comes from the text. */
  lemma TakeStripWithin(s: string, n: nat, c: char)
    requires c in Take(Strip(s), n)
    ensures c in s
  {
    var st := Strip(s);
    var r := Take(st, n);
    var i, j :| 0 <= i <= j <= |s| && st == s[i..j];
    var p :| 0 <= p < |r| && r[p] == c;
    assert st[p] == s[i + p];
  }

  lemma StripNoSpace(s: string)
    requires NoSpace(s)
    ensures Strip(s) == s
  {
    if s != [] {
      assert LeadingSpace(s) == 0;
      assert TrailingSpace(s) == 0;
    }
  }

  /** A string that is empty or only whitespace strips to "". */
  lemma StripAllSpace(s: string)
    requires forall i :: 0 <= i < |s| ==> IsSpace(s[i])
    ensures Strip(s) == []
  {
    if s != [] {
      assert LeadingSpace(s) == |s| by { AllSpaceLeading(s); }
    }
  }

  lemma {:induction false} AllSpaceLeading(s: string)
    requires forall i :: 0 <= i < |s| ==> IsSpace(s[i])
    ensures LeadingSpace(s) == |s|
  {
    if s != [] { AllSpaceLeading(s[1..]); }
  }

  /** Length of the leading run of non-whitespace characters. */
  function TokenLength(s: string): (n: nat)
    ensures n <= |s|
    ensures forall i :: 0 <= i < n ==> !IsSpace(s[i])
    ensures n < |s| ==> IsSpace(s[n])
  {
    if s == [] || IsSpace(s[0]) then 0 else 1 + TokenLength(s[1..])
  }

  /** Python's `str.split()` with no argument: the maximal runs of non-whitespace. */
  function SplitWords(s: string): (r: seq<string>)
    ensures forall k :: 0 <= k < |r| ==> |r[k]| > 0 && NoSpace(r[k])
    decreases |s|
  {
    var t := s[LeadingSpace(s)..];
    if t == [] then []
    else
      var n := TokenLength(t);
      assert n > 0;
      [t[..n]] + SplitWords(t[n..])
  }

  /** Python's `str.split(sep)` for a one-character separator. */
  function SplitOn(s: string, sep: char): (r: seq<string>)
    ensures |r| > 0
    ensures forall k :: 0 <= k < |r| ==> sep !in r[k]
    decreases |s|
  {
    if sep !in s then [s]
    else
      var i := IndexOf(s, sep);
      [s[..i]] + SplitOn(s[i + 1..], sep)
  }

  /** Splitting gives a single part exactly when the separator does not occur, and then that part is the text. */
  lemma SplitOnSingle(s: string, sep: char)
    ensures |SplitOn(s, sep)| == 1 <==> sep !in s
    ensures sep !in s ==> SplitOn(s, sep) == [s]
  {
    if sep in s {
      var i := IndexOf(s, sep);
      assert |SplitOn(s, sep)| == 1 + |SplitOn(s[i + 1..], sep)|;
    }
  }

  function IndexOf(s: string, c: char): (i: nat)
    requires c in s
    ensures i < |s| && s[i] == c && c !in s[..i]
  {
    if s[0] == c then 0 else 1 + IndexOf(s[1..], c)
  }

  /** Python's `sep.join(parts)`. */
  function Join(sep: string, parts: seq<string>): string
  {
    if parts == [] then [] else if |parts| == 1 then parts[0] else parts[0] + sep + Join(sep, parts[1..])
  }

  /** Splitting a text that starts with a separator-free part and a separator. */
  lemma SplitOnStep(a: string, sep: char, t: string)
    requires sep !in a
    ensures SplitOn(a + [sep] + t, sep) == [a] + SplitOn(t, sep)
  {
    var s := a + [sep] + t;
    assert s[|a|] == sep;
    assert s[..|a|] == a;
    var i := IndexOf(s, sep);
    assert i <= |a| ==> s[..i] == a[..i];
    assert i == |a|;
    assert s[..i] == a;
    assert s[i + 1..] == t;
  }

  /** Splitting on a separator and joining with it gives the text back. */
  lemma {:induction false} JoinSplitOn(s: string, sep: char)
    ensures Join([sep], SplitOn(s, sep)) == s
    decreases |s|
  {
    if sep in s {
      var i := IndexOf(s, sep);
      var rest := SplitOn(s[i + 1..], sep);
      JoinSplitOn(s[i + 1..], sep);
      var parts := [s[..i]] + rest;
      assert SplitOn(s, sep) == parts;
      assert parts[0] == s[..i] && parts[1..] == rest && |parts| > 1;
      assert Join([sep], parts) == s[..i] + [sep] + Join([sep], rest);
      assert s == s[..i] + [sep] + s[i + 1..];
    }
  }

  // ---------------------------------------------------------------
  // Substrings
  // ---------------------------------------------------------------

  predicate StartsWith(s: string, p: string) { |p| <= |s| && s[..|p|] == p }

  predicate EndsWith(s: string, p: string) { |p| <= |s| && s[|s| - |p|..] == p }

  predicate OccursAt(s: string, p: string, i: int)
  {
    0 <= i && i + |p| <= |s| && s[i..i + |p|] == p
  }

  /** Python's `p in s` for strings. */
  predicate Contains(s: string, p: string)
  {
    exists i :: 0 <= i <= |s| && OccursAt(s, p, i)
  }

  /** The first index at or after `i` where `p` occurs, or -1. */
  function FindFrom(s: string, p: string, i: nat): (r: int)
    requires i <= |s|
    ensures r == -1 || (i <= r && OccursAt(s, p, r))
    ensures r == -1 ==> forall j :: i <= j <= |s| ==> !OccursAt(s, p, j)
    ensures r >= 0 ==> forall j :: i <= j < r ==> !OccursAt(s, p, j)
    decreases |s| - i
  {
    if i + |p| > |s| then -1
    else if s[i..i + |p|] == p then i
    else FindFrom(s, p, i + 1)
  }

  /** Python's `s.find(p)`: the first index where `p` occurs, or -1. */
  function Find(s: string, p: string): (r: int)
    ensures r == -1 <==> !Contains(s, p)
    ensures r >= 0 ==> OccursAt(s, p, r) && forall j :: 0 <= j < r ==> !OccursAt(s, p, j)
  {
    FindFrom(s, p, 0)
  }

  lemma ShiftOccurs(s: string, p: string, i: int)
    requires |s| > 0 && 0 <= i
    ensures OccursAt(s[1..], p, i) <==> OccursAt(s, p, i + 1)
  {
    if i + |p| <= |s| - 1 {
      assert s[1..][i..i + |p|] == s[i + 1..i + 1 + |p|];
    }
  }

  lemma ContainsTail(s: string, p: string)
    requires |s| > 0 && Contains(s[1..], p)
    ensures Contains(s, p)
  {
    var i :| 0 <= i <= |s[1..]| && OccursAt(s[1..], p, i);
    ShiftOccurs(s, p, i);
    assert OccursAt(s, p, i + 1);
  }

  /**
   * Python's `s.replace(p, q)` for a non-empty pattern: every
   * non-overlapping occurrence, scanned left to right, is replaced.
   */
  function Replace(s: string, p: string, q: string): string
    requires |p| > 0
    decreases |s|
  {
    if |s| < |p| then s
    else if s[..|p|] == p then q + Replace(s[|p|..], p, q)
    else [s[0]] + Replace(s[1..], p, q)
  }

  /** A pattern that does not occur is not replaced. */
  lemma {:induction false} ReplaceAbsent(s: string, p: string, q: string)
    requires |p| > 0 && !Contains(s, p)
    ensures Replace(s, p, q) == s
    decreases |s|
  {
    if |s| >= |p| {
      assert !OccursAt(s, p, 0);
      if Contains(s[1..], p) { ContainsTail(s, p); }
      ReplaceAbsent(s[1..], p, q);
      assert s == [s[0]] + s[1..];
    }
  }

  /**
   * Replacing in `a + p + b`, where no occurrence of `p` starts inside `a`,
   * keeps `a`, substitutes the occurrence and carries on in `b`.
   */
  lemma {:induction false} ReplaceFirst(a: string, p: string, q: string, b: string)
    requires |p| > 0
    requires forall j :: 0 <= j < |a| ==> !OccursAt(a + p + b, p, j)
    ensures Replace(a + p + b, p, q) == a + q + Replace(b, p, q)
    decreases |a|
  {
    var s := a + p + b;
    if a == [] {
      assert s == p + b;
      assert s[..|p|] == p;
      assert s[|p|..] == b;
    } else {
      assert !OccursAt(s, p, 0);
      assert s[..|p|] != p;
      var a' := a[1..];
      assert s[1..] == a' + p + b;
      assert Replace(s, p, q) == [a[0]] + Replace(a' + p + b, p, q);
      forall j | 0 <= j < |a'| ensures !OccursAt(a' + p + b, p, j) {
        ShiftOccurs(s, p, j);
      }
      ReplaceFirst(a', p, q, b);
      assert [a[0]] + a' == a;
    }
  }

  /** Text in which the character `c` does not occur. */
  predicate NoChar(s: string, c: char) { forall i :: 0 <= i < |s| ==> s[i] != c }

  /** Text with no opening brace, so no `{name}` placeholder occurs in it. */
  predicate NoBrace(s: string) { NoChar(s, '{') }

  /** A pattern cannot occur where its first character does not. */
  lemma NoCharNoOccurrence(s: string, p: string)
    requires |p| > 0 && NoChar(s, p[0])
    ensures !Contains(s, p)
  {
    forall i | 0 <= i <= |s|
      ensures !OccursAt(s, p, i)
    {
      if i + |p| <= |s| {
        assert s[i..i + |p|][0] == s[i];
      }
    }
  }

  /** A second update of a key overrides the first. */
  lemma MapUpdateTwice<K, V>(m: map<K, V>, k: K, a: V, b: V)
    ensures m[k := a][k := b] == m[k := b]
  {
  }

  /** Concatenation regrouped. */
  lemma SeqAssoc<T>(a: seq<T>, b: seq<T>, c: seq<T>)
    ensures a + b + c == a + (b + c)
  {
  }

  lemma NoCharConcat(a: string, b: string, c: char)
    requires NoChar(a, c) && NoChar(b, c)
    ensures NoChar(a + b, c)
  {
    forall i | 0 <= i < |a + b|
      ensures (a + b)[i] != c
    {
      if i < |a| { assert (a + b)[i] == a[i]; } else { assert (a + b)[i] == b[i - |a|]; }
    }
  }

  /**
   * One occurrence of a pattern, between text that lacks the pattern's first
   * character, is the only thing replaced.
   */
  lemma FillBetween(a: string, p: string, q: string, b: string)
    requires |p| > 0 && NoChar(a, p[0]) && NoChar(b, p[0])
    ensures Replace(a + p + b, p, q) == a + q + b
  {
    var s := a + p + b;
    forall j | 0 <= j < |a|
      ensures !OccursAt(s, p, j)
    {
      assert s[j] == a[j];
      if j + |p| <= |s| { assert s[j..j + |p|][0] == s[j]; }
    }
    ReplaceFirst(a, p, q, b);
    NoCharNoOccurrence(b, p);
    ReplaceAbsent(b, p, q);
  }

  /**
   * The loop `for attempt in range(n)` that returns at the first attempt
   * that goes through: which attempt that was, if any.
   */
  method FirstSuccess(n: nat, ok: nat -> bool) returns (r: Option<nat>)
    ensures r.Some? ==> r.value < n && ok(r.value) && forall k :: 0 <= k < r.value ==> !ok(k)
    ensures r.None? <==> forall k :: 0 <= k < n ==> !ok(k)
  {
    var attempt := 0;
    while attempt < n
      invariant attempt <= n
      invariant forall k :: 0 <= k < attempt ==> !ok(k)
    {
      if ok(attempt) {
        return Some(attempt);
      }
      attempt := attempt + 1;
    }
    return None;
  }

  /** Python's `s[:n]` for `n >= 0`. */
  function Take<T>(s: seq<T>, n: nat): (r: seq<T>)
    ensures |r| == Min(n, |s|)
    ensures r == s[..|r|]
  {
    if n <= |s| then s[..n] else s
  }

  // ---------------------------------------------------------------
  // Duplicate-free sequences
  // ---------------------------------------------------------------

  predicate NoDup<T(==)>(s: seq<T>)
  {
    forall i, j :: 0 <= i < j < |s| ==> s[i] != s[j]
  }

  /** Keep the first occurrence of every element, in order. */
  function Dedup<T(==,!new)>(s: seq<T>): (r: seq<T>)
    ensures NoDup(r)
    ensures forall x :: x in r <==> x in s
    ensures |r| <= |s|
  {
    if s == [] then []
    else
      var d := Dedup(s[..|s| - 1]);
      var x := s[|s| - 1];
      assert forall y :: y in s <==> y in s[..|s| - 1] || y == x;
      if x in d then d else d + [x]
  }

  /** The index of the first element satisfying `p`: what `find_one` returns in insertion order. */
  function FirstWhere<T>(s: seq<T>, p: T -> bool): (r: Option<nat>)
    ensures r.None? <==> forall i :: 0 <= i < |s| ==> !p(s[i])
    ensures r.Some? ==> r.value < |s| && p(s[r.value]) && forall j :: 0 <= j < r.value ==> !p(s[j])
  {
    if s == [] then None
    else if p(s[0]) then Some(0)
    else
      var rest := FirstWhere(s[1..], p);
      assert forall j :: 0 < j < |s| ==> s[j] == s[1..][j - 1];
      if rest.None? then None else Some(rest.value + 1)
  }

  /** A scan that stops at the first element satisfying `p`. */
  method FindFirst<T>(s: seq<T>, p: T -> bool) returns (r: Option<nat>)
    ensures r == FirstWhere(s, p)
  {
    var i := 0;
    while i < |s|
      invariant i <= |s|
      invariant forall j :: 0 <= j < i ==> !p(s[j])
    {
      if p(s[i]) {
        return Some(i);
      }
      i := i + 1;
    }
    return None;
  }

  /** The elements of `s` that satisfy `keep`, in order. */
  function Filter<T(==,!new)>(s: seq<T>, keep: T -> bool): (r: seq<T>)
    ensures |r| <= |s|
    ensures forall x :: x in r <==> x in s && keep(x)
  {
    if s == [] then []
    else
      var rest := Filter(s[1..], keep);
      assert forall y :: y in s <==> y == s[0] || y in s[1..];
      if keep(s[0]) then [s[0]] + rest else rest
  }

  lemma {:induction false} FilterNoDup<T(!new)>(s: seq<T>, keep: T -> bool)
    requires NoDup(s)
    ensures NoDup(Filter(s, keep))
  {
    if s != [] {
      FilterNoDup(s[1..], keep);
      var rest := Filter(s[1..], keep);
      if keep(s[0]) {
        assert s[0] !in s[1..];
        assert s[0] !in rest;
        var r := [s[0]] + rest;
        forall i, j | 0 <= i < j < |r| ensures r[i] != r[j] {
          if i > 0 { assert r[i] == rest[i - 1] && r[j] == rest[j - 1]; }
          else { assert r[j] in rest; }
        }
      }
    }
  }

  /** A non-empty set has an element to pick. */
  lemma NonEmptyHasElement(s: set<int>)
    requires s != {}
    ensures exists x :: x in s
  {
    if forall x :: x !in s {
      assert false;
    }
  }

  /** Number of occurrences of `x` in `s`. */
  function Count<T(==)>(s: seq<T>, x: T): (n: nat)
    ensures n <= |s|
    ensures n > 0 <==> x in s
  {
    if s == [] then 0 else (if s[0] == x then 1 else 0) + Count(s[1..], x)
  }

  /** A duplicate-free sequence has as many elements as its set. */
  lemma {:induction false} NoDupCard<T>(s: seq<T>)
    requires NoDup(s)
    ensures |set x | x in s| == |s|
  {
    if s != [] {
      var t := s[1..];
      NoDupCard(t);
      assert s[0] !in t;
      assert (set x | x in s) == {s[0]} + (set x | x in t);
    }
  }

  /** Filtering a sequence extended by one element. */
  lemma {:induction false} FilterSnoc<T(!new)>(s: seq<T>, x: T, keep: T -> bool)
    ensures Filter(s + [x], keep) == Filter(s, keep) + (if keep(x) then [x] else [])
  {
    if s == [] {
      assert [x][1..] == [];
    } else {
      assert (s + [x])[1..] == s[1..] + [x];
      FilterSnoc(s[1..], x, keep);
    }
  }

  /** Filtering one more element of a prefix. */
  lemma FilterPrefixStep<T(!new)>(s: seq<T>, i: nat, keep: T -> bool)
    requires i < |s|
    ensures Filter(s[..i + 1], keep) == Filter(s[..i], keep) + (if keep(s[i]) then [s[i]] else [])
  {
    assert s[..i + 1] == s[..i] + [s[i]];
    FilterSnoc(s[..i], s[i], keep);
  }

  lemma {:induction false} FilterConcat<T(!new)>(a: seq<T>, b: seq<T>, keep: T -> bool)
    ensures Filter(a + b, keep) == Filter(a, keep) + Filter(b, keep)
  {
    if a != [] {
      assert (a + b)[1..] == a[1..] + b;
      FilterConcat(a[1..], b, keep);
    } else {
      assert a + b == b;
    }
  }

  /** Filtering keeps a sequence whose every element passes. */
  lemma {:induction false} FilterAll<T(!new)>(s: seq<T>, keep: T -> bool)
    requires forall i :: 0 <= i < |s| ==> keep(s[i])
    ensures Filter(s, keep) == s
  {
    if s != [] {
      assert keep(s[0]);
      FilterAll(s[1..], keep);
    }
  }

  lemma NoDupPrefix<T>(s: seq<T>, n: nat)
    requires NoDup(s) && n <= |s|
    ensures NoDup(s[..n])
  {
  }

  lemma NoDupConcat<T>(a: seq<T>, b: seq<T>)
    requires NoDup(a) && NoDup(b)
    requires forall x :: x in a ==> x !in b
    ensures NoDup(a + b)
  {
    var c := a + b;
    forall i, j | 0 <= i < j < |c| ensures c[i] != c[j] {
      if j < |a| {
      } else if i >= |a| {
        assert c[i] == b[i - |a|] && c[j] == b[j - |a|];
      } else {
        assert c[i] in a && c[j] == b[j - |a|];
      }
    }
  }

  /** Elements of `s` that do not occur in `ex`, in order. */
  function Without<T(==,!new)>(s: seq<T>, ex: seq<T>): (r: seq<T>)
    ensures |r| <= |s|
    ensures forall x :: x in r <==> x in s && x !in ex
  {
    if s == [] then []
    else
      assert forall y :: y in s <==> y == s[0] || y in s[1..];
      (if s[0] in ex then [] else [s[0]]) + Without(s[1..], ex)
  }

  /** Elements of `s` that occur in `within`, in order. */
  function Within<T(==,!new)>(s: seq<T>, within: seq<T>): (r: seq<T>)
    ensures |r| <= |s|
    ensures forall x :: x in r <==> x in s && x in within
  {
    if s == [] then []
    else
      assert forall y :: y in s <==> y == s[0] || y in s[1..];
      (if s[0] in within then [s[0]] else []) + Within(s[1..], within)
  }

  lemma {:induction false} WithoutNoDup<T(!new)>(s: seq<T>, ex: seq<T>)
    requires NoDup(s)
    ensures NoDup(Without(s, ex))
  {
    if s != [] {
      WithoutNoDup(s[1..], ex);
      var head := if s[0] in ex then [] else [s[0]];
      assert s[0] !in s[1..];
      NoDupConcat(head, Without(s[1..], ex));
    }
  }

  lemma {:induction false} WithinAll<T(!new)>(s: seq<T>, within: seq<T>)
    requires forall x :: x in s ==> x in within
    ensures Within(s, within) == s
  {
    if s != [] {
      WithinAll(s[1..], within);
      assert [s[0]] + s[1..] == s;
    }
  }

  lemma RemoveShrinks<T>(s: set<T>, x: T)
    requires x in s
    ensures |s - {x}| < |s|
  {
  }

  lemma AppendAssoc<T>(a: seq<T>, b: seq<T>, c: seq<T>)
    ensures (a + b) + c == a + (b + c)
  {
  }

  lemma {:induction false} WithoutAll<T(!new)>(s: seq<T>, ex: seq<T>)
    requires forall x :: x in s ==> x in ex
    ensures Without(s, ex) == []
  {
    if s != [] {
      assert s[0] in ex;
      WithoutAll(s[1..], ex);
    }
  }

  lemma {:induction false} DedupNoDup<T(!new)>(s: seq<T>)
    requires NoDup(s)
    ensures Dedup(s) == s
  {
    if s != [] {
      var p := s[..|s| - 1];
      DedupNoDup(p);
      assert s[|s| - 1] !in p;
      assert p + [s[|s| - 1]] == s;
    }
  }

  /** Cardinality of the set of a sequence's elements never exceeds its length. */
  lemma {:induction false} CardAtMostLength<T>(s: seq<T>)
    ensures |set x | x in s| <= |s|
  {
    if s != [] {
      CardAtMostLength(s[1..]);
      assert (set x | x in s) == {s[0]} + (set x | x in s[1..]);
    }
  }

  /** A subset is no larger than the set containing it. */
  lemma {:induction false} SubsetCard<T>(a: set<T>, b: set<T>)
    requires a <= b
    ensures |a| <= |b|
  {
    if a != {} {
      var x :| x in a;
      SubsetCard(a - {x}, b - {x});
    }
  }

  lemma SampleSourceLength<T(!new)>(pool: seq<T>, hint: seq<T>)
    requires NoDup(pool)
    ensures |Dedup(Within(hint, pool)) + Without(pool, hint)| == |pool|
    ensures NoDup(Dedup(Within(hint, pool)) + Without(pool, hint))
  {
    var a := Dedup(Within(hint, pool));
    var b := Without(pool, hint);
    WithoutNoDup(pool, hint);
    NoDupConcat(a, b);
    var c := a + b;
    assert (set x | x in c) == (set x | x in pool);
    NoDupCard(c);
    NoDupCard(pool);
  }

  /**
   * `random.sample(pool, k)`: the environment's choice is the `hint`; the
   * result is always `k` distinct elements of a duplicate-free pool, and any
   * such choice can be produced (SampleComplete).
   */
  function Sample<T(==,!new)>(pool: seq<T>, k: nat, hint: seq<T>): (r: seq<T>)
    requires k <= |pool|
    ensures forall x :: x in r ==> x in pool
    ensures NoDup(pool) ==> |r| == k && NoDup(r)
  {
    var c := Dedup(Within(hint, pool)) + Without(pool, hint);
    assert forall x :: x in c ==> x in pool;
    if NoDup(pool) then
      SampleSourceLength(pool, hint);
      NoDupPrefix(c, k);
      c[..k]
    else Take(c, k)
  }

  predicate IsSample<T(==)>(s: seq<T>, pool: seq<T>, k: nat)
  {
    |s| == k && NoDup(s) && forall x :: x in s ==> x in pool
  }

  lemma SampleComplete<T(!new)>(pool: seq<T>, k: nat, s: seq<T>)
    requires NoDup(pool) && k <= |pool| && IsSample(s, pool, k)
    ensures Sample(pool, k, s) == s
  {
    WithinAll(s, pool);
    DedupNoDup(s);
    var c := s + Without(pool, s);
    assert c[..k] == s;
  }

  /** `random.choice(pool)`: the environment's choice is an index hint. */
  function Choice<T>(pool: seq<T>, hint: nat): (r: T)
    requires |pool| > 0
    ensures r in pool
  {
    pool[hint % |pool|]
  }

  lemma ChoiceComplete<T>(pool: seq<T>, i: nat)
    requires i < |pool|
    ensures Choice(pool, i) == pool[i]
  {
    ModBelow(i, |pool|);
  }

  /** A remainder by a larger divisor is the number itself. */
  lemma ModBelow(i: nat, n: nat)
    requires i < n
    ensures i % n == i
  {
  }
}
