/**
 * The string helpers the service relies on: Python's `str.strip()`, `str(n)`
 * for a slide number, and the `[a-zA-Z0-9-_]+` identifier runs that the URL
 * regular expressions capture.
 */
module Text {
  import opened Wrappers

  /** Python's `str.isspace()` for one character: the characters `strip()` removes. */
  predicate IsSpace(c: char)
  {
    || ('\t' <= c <= '\r')                 // tab, line feed, vertical tab, form feed, carriage return
    || ('\U{1C}' <= c <= '\U{1F}')         // the four information separators
    || c == ' ' || c == '\U{85}' || c == '\U{A0}' || c == '\U{1680}'
    || ('\U{2000}' <= c <= '\U{200A}')
    || c == '\U{2028}' || c == '\U{2029}' || c == '\U{202F}' || c == '\U{205F}' || c == '\U{3000}'
  }

  /** Every character of `s` is whitespace (so `s.strip()` is empty). */
  predicate AllSpace(s: string)
  {
    forall i :: 0 <= i < |s| ==> IsSpace(s[i])
  }

  /** `s.lstrip()`: drops the leading whitespace. */
  function TrimStart(s: string): string
  {
    if s != [] && IsSpace(s[0]) then TrimStart(s[1..]) else s
  }

  /** `s.rstrip()`: drops the trailing whitespace. */
  function TrimEnd(s: string): string
  {
    if s != [] && IsSpace(s[|s| - 1]) then TrimEnd(s[..|s| - 1]) else s
  }

  /** `TrimStart` keeps a suffix, drops only whitespace, and stops at a non-space. */
  lemma {:induction false} TrimStartSpec(s: string)
    ensures var r := TrimStart(s);
            && |r| <= |s| && r == s[|s| - |r|..]
            && AllSpace(s[..|s| - |r|])
            && (r == [] || !IsSpace(r[0]))
  {
    if s != [] && IsSpace(s[0]) {
      TrimStartSpec(s[1..]);
      var r := TrimStart(s[1..]);
      assert s[1..][..|s| - 1 - |r|] == s[1..|s| - |r|];
    }
  }

  /** `TrimEnd` keeps a prefix, drops only whitespace, and stops at a non-space. */
  lemma {:induction false} TrimEndSpec(s: string)
    ensures var r := TrimEnd(s);
            && |r| <= |s| && r == s[..|r|]
            && AllSpace(s[|r|..])
            && (r == [] || !IsSpace(r[|r| - 1]))
  {
    if s != [] && IsSpace(s[|s| - 1]) {
      TrimEndSpec(s[..|s| - 1]);
      var r := TrimEnd(s[..|s| - 1]);
      assert s[..|s| - 1][|r|..] + [s[|s| - 1]] == s[|r|..];
    }
  }

  /** `s.strip()`: whitespace removed from both ends. */
  function Strip(s: string): string
  {
    TrimEnd(TrimStart(s))
  }

  /**
   * What `Strip` keeps: an infix `s[a..b]` with only whitespace before `a`
   * and after `b`; it is empty exactly when `s` is all whitespace, and
   * otherwise begins and ends with a character that is not whitespace.
   */
  lemma StripSpec(s: string) returns (a: nat, b: nat)
    ensures a <= b <= |s| && Strip(s) == s[a..b]
    ensures AllSpace(s[..a]) && AllSpace(s[b..])
    ensures Strip(s) == "" <==> AllSpace(s)
    ensures Strip(s) != "" ==> !IsSpace(Strip(s)[0]) && !IsSpace(Strip(s)[|Strip(s)| - 1])
  {
    var t := TrimStart(s);
    TrimStartSpec(s);
    var r := TrimEnd(t);
    TrimEndSpec(t);
    a, b := |s| - |t|, |s| - |t| + |r|;
    assert t[|r|..] == s[b..];
    assert r == "" ==> s == s[..|s| - |t|] + t[|r|..];
    assert r != "" ==> !IsSpace(s[|s| - |t|]);
  }

  /** Stripping twice is stripping once. */
  lemma StripIdempotent(s: string)
    ensures Strip(Strip(s)) == Strip(s)
  {
    var r := Strip(s);
    var _, _ := StripSpec(s);
    assert TrimStart(r) == r;
    assert TrimEnd(r) == r;
  }

  /** Python's `s.startswith(prefix)`. */
  predicate StartsWith(s: string, prefix: string)
  {
    prefix == [] || (s != [] && s[0] == prefix[0] && StartsWith(s[1..], prefix[1..]))
  }

  /** `StartsWith` is the sequence-prefix relation. */
  lemma {:induction false} StartsWithIsPrefix(s: string, prefix: string)
    ensures StartsWith(s, prefix) <==> prefix <= s
  {
    if prefix != [] && s != [] {
      StartsWithIsPrefix(s[1..], prefix[1..]);
    }
  }

  /** One decimal digit, `0 <= d < 10`. */
  function Digit(d: nat): (c: char)
    requires d < 10
    ensures '0' <= c <= '9' && c as int - '0' as int == d
  {
    (d + '0' as int) as char
  }

  /** Python's `str(n)` for a non-negative integer: decimal, no leading zero. */
  function DecimalString(n: nat): (s: string)
    ensures |s| >= 1 && IsDecimal(s)
    ensures |s| > 1 ==> s[0] != '0'
  {
    if n < 10 then [Digit(n)] else DecimalString(n / 10) + [Digit(n % 10)]
  }

  /** Every character of `s` is a decimal digit. */
  predicate IsDecimal(s: string)
  {
    forall i :: 0 <= i < |s| ==> '0' <= s[i] <= '9'
  }

  /** The number a string of decimal digits denotes (Python's `int(s)`). */
  function DecimalValue(s: string): nat
    requires IsDecimal(s)
  {
    if s == [] then 0
    else DecimalValue(s[..|s| - 1]) * 10 + (s[|s| - 1] as int - '0' as int)
  }

  /** Reading back the number printed by `DecimalString` gives the number. */
  lemma {:induction false} DecimalRoundTrip(n: nat)
    ensures DecimalValue(DecimalString(n)) == n
  {
    if n >= 10 {
      var s := DecimalString(n);
      assert s[..|s| - 1] == DecimalString(n / 10);
      DecimalRoundTrip(n / 10);
    }
  }

  /** A character of the class `[a-zA-Z0-9-_]` in the URL patterns. */
  predicate IsIdChar(c: char)
  {
    ('a' <= c <= 'z') || ('A' <= c <= 'Z') || ('0' <= c <= '9') || c == '-' || c == '_'
  }

  /** The longest prefix of `s` made of identifier characters (a greedy `[...]+`). */
  function IdRun(s: string): (r: string)
    ensures r <= s
    ensures forall i :: 0 <= i < |r| ==> IsIdChar(r[i])
    ensures |r| < |s| ==> !IsIdChar(s[|r|])
  {
    if s != [] && IsIdChar(s[0]) then [s[0]] + IdRun(s[1..]) else []
  }

  /** `marker` followed by at least one identifier character starts at position `i` of `s`. */
  predicate MatchesAt(s: string, marker: string, i: nat)
  {
    i + |marker| < |s| && (forall j :: 0 <= j < |marker| ==> s[i + j] == marker[j]) && IsIdChar(s[i + |marker|])
  }

  /** No occurrence of `MatchesAt` lies before `k`. */
  predicate LeftmostMatch(s: string, marker: string, k: nat)
  {
    forall j :: 0 <= j < k ==> !MatchesAt(s, marker, j)
  }

  /** The leftmost position at or after `from` where `MatchesAt` holds, or `|s|` if none. */
  function FindFrom(s: string, marker: string, from: nat): (k: nat)
    requires from <= |s|
    ensures from <= k <= |s|
    ensures k < |s| ==> MatchesAt(s, marker, k)
    ensures forall j :: from <= j < k ==> !MatchesAt(s, marker, j)
    decreases |s| - from
  {
    if from == |s| then |s|
    else if MatchesAt(s, marker, from) then from
    else FindFrom(s, marker, from + 1)
  }

  /**
   * `re.search(marker + '([a-zA-Z0-9-_]+)', s).group(1)`: the identifier
   * after the leftmost occurrence of `marker` that is followed by one, or
   * `None` when there is no such occurrence.
   */
  function SearchId(s: string, marker: string): (r: Option<string>)
    ensures r.Some? ==> IsId(r.value)
  {
    var k := FindFrom(s, marker, 0);
    if k < |s| then Some(IdRun(s[k + |marker|..])) else None
  }

  /**
   * The search fails exactly when `marker` is nowhere followed by an
   * identifier character; otherwise it yields the whole identifier run
   * after the leftmost such occurrence.
   */
  lemma SearchIdSpec(s: string, marker: string)
    ensures SearchId(s, marker).None? <==> forall i :: 0 <= i < |s| ==> !MatchesAt(s, marker, i)
    ensures SearchId(s, marker).Some? ==>
              var id := SearchId(s, marker).value;
              exists k: nat :: MatchesAt(s, marker, k) && LeftmostMatch(s, marker, k)
                               && marker + id <= s[k..]
                               && (k + |marker| + |id| < |s| ==> !IsIdChar(s[k + |marker| + |id|]))
  {
    var k := FindFrom(s, marker, 0);
    if k < |s| {
      var id := IdRun(s[k + |marker|..]);
      assert s[k..][..|marker| + |id|] == marker + id;
      assert MatchesAt(s, marker, k) && LeftmostMatch(s, marker, k);
    }
  }

  /** An identifier: a non-empty run of identifier characters. */
  predicate IsId(id: string)
  {
    id != "" && forall i :: 0 <= i < |id| ==> IsIdChar(id[i])
  }

  /**
   * The greedy run over a string that starts with the identifier characters
   * of `id`, followed by a non-identifier character or nothing, is `id`.
   */
  lemma IdRunIs(t: string, id: string)
    requires |id| <= |t| && forall j :: 0 <= j < |id| ==> t[j] == id[j] && IsIdChar(id[j])
    requires |id| < |t| ==> !IsIdChar(t[|id|])
    ensures IdRun(t) == id
  {
    var r := IdRun(t);
    assert |r| == |id|;
    forall j | 0 <= j < |id| ensures r[j] == id[j] {
      assert r[j] == t[j];
    }
  }

  /** The search stops at the leftmost match and reads the identifier run after the marker. */
  lemma SearchIdFound(s: string, marker: string, k: nat)
    requires MatchesAt(s, marker, k) && LeftmostMatch(s, marker, k)
    ensures SearchId(s, marker) == Some(IdRun(s[k + |marker|..]))
  {
    var f := FindFrom(s, marker, 0);
    assert f <= k by {
      assert !(0 <= k < f && !MatchesAt(s, marker, k));
    }
    assert k <= f by {
      assert f < |s| ==> MatchesAt(s, marker, f);
    }
  }

  /**
   * When `marker` sits at `k` of `s`, is followed by the identifier `id` and
   * then by a non-identifier character or the end, and matches nowhere
   * earlier, the search yields exactly `id`.
   */
  lemma SearchIdAt(s: string, marker: string, k: nat, id: string)
    requires IsId(id) && k + |marker| + |id| <= |s|
    requires forall j :: 0 <= j < |marker| ==> s[k + j] == marker[j]
    requires forall j :: 0 <= j < |id| ==> s[k + |marker| + j] == id[j]
    requires k + |marker| + |id| < |s| ==> !IsIdChar(s[k + |marker| + |id|])
    requires LeftmostMatch(s, marker, k)
    ensures SearchId(s, marker) == Some(id)
  {
    assert s[k + |marker|] == id[0];
    SearchIdFound(s, marker, k);
    IdRunIs(s[k + |marker|..], id);
  }
}
