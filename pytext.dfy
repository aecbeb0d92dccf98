/**
  The three Python `str` operations the log-line decoder relies on, over
  `seq<char>`: `str.replace(old, new)` (no count: every occurrence),
  `str.strip()` (no argument: whitespace), and `str.upper()`.
  Whitespace and case are modelled over ASCII only.
 */
module PyText {

  /** `str.isspace()` restricted to ASCII: tab, line feed, vertical tab, form
      feed, carriage return, the four separators 0x1C-0x1F, and space. */
  predicate IsSpace(c: char) {
    ('\t' <= c <= '\r') || ('\U{1C}' <= c <= '\U{1F}') || c == ' '
  }

  predicate AllSpace(s: string) {
    forall i :: 0 <= i < |s| ==> IsSpace(s[i])
  }

  /** Neither the first nor the last character is whitespace. */
  predicate NoEdgeSpace(s: string) {
    s == [] || (!IsSpace(s[0]) && !IsSpace(s[|s| - 1]))
  }

  /** `pat` occurs in `s` starting at index `i`. */
  predicate OccursAt(s: string, pat: string, i: nat) {
    i + |pat| <= |s| && s[i..i + |pat|] == pat
  }

  predicate StartsWith(s: string, prefix: string) {
    |prefix| <= |s| && s[..|prefix|] == prefix
  }

  /** The character `c` does not occur in `s`. */
  predicate Lacks(s: string, c: char) {
    forall i :: 0 <= i < |s| ==> s[i] != c
  }

  /** Regrouping three concatenated sequences to the left. */
  lemma Regroup3<T>(a: seq<T>, b: seq<T>, c: seq<T>)
    ensures a + (b + c) == a + b + c
  {
  }

  /** Regrouping four concatenated strings to the left. */
  lemma Regroup4(a: string, b: string, c: string, d: string)
    ensures a + (b + (c + d)) == a + b + c + d
  {
  }

  /** Regrouping a four-piece chain appended to a string. */
  lemma Regroup5(a: string, b: string, c: string, d: string, e: string)
    ensures a + (b + c + d + e) == a + b + c + d + e
  {
  }

  /** Regrouping a five-piece chain appended to a string. */
  lemma Regroup6(a: string, b: string, c: string, d: string, e: string, f: string)
    ensures a + (b + c + d + e + f) == a + b + c + d + e + f
  {
  }

  lemma LacksConcat(a: string, b: string, c: char)
    requires Lacks(a, c) && Lacks(b, c)
    ensures Lacks(a + b, c)
  {
  }

  // ---------------------------------------------------------------------
  // str.replace(pat, rep): left-to-right, non-overlapping, every occurrence
  // ---------------------------------------------------------------------

  /** Python's `"abc".replace("", r)`: `r` before every character and at the end. */
  function Interleave(s: string, rep: string): string
    decreases |s|
  {
    if s == [] then rep else rep + [s[0]] + Interleave(s[1..], rep)
  }

  /** `s.replace(pat, rep)`. */
  function ReplaceAll(s: string, pat: string, rep: string): string
    decreases |s|
  {
    if pat == [] then Interleave(s, rep)
    else if s == [] then []
    else if OccursAt(s, pat, 0) then rep + ReplaceAll(s[|pat|..], pat, rep)
    else [s[0]] + ReplaceAll(s[1..], pat, rep)
  }

  /** A string in which `pat` never occurs is returned unchanged. */
  lemma {:induction false} ReplaceAbsent(s: string, pat: string, rep: string)
    requires pat != []
    requires forall i :: 0 <= i <= |s| ==> !OccursAt(s, pat, i)
    ensures ReplaceAll(s, pat, rep) == s
    decreases |s|
  {
    if s != [] {
      assert !OccursAt(s, pat, 0);
      forall i | 0 <= i <= |s[1..]|
        ensures !OccursAt(s[1..], pat, i)
      {
        assert OccursAt(s[1..], pat, i) ==> OccursAt(s, pat, i + 1) by {
          if OccursAt(s[1..], pat, i) {
            assert s[i + 1..i + 1 + |pat|] == s[1..][i..i + |pat|];
          }
        }
      }
      ReplaceAbsent(s[1..], pat, rep);
    }
  }

  /** Deleting occurrences never lengthens a string. */
  lemma {:induction false} DeleteShrinks(s: string, pat: string)
    ensures |ReplaceAll(s, pat, [])| <= |s|
    decreases |s|
  {
    if pat == [] {
      InterleaveEmpty(s);
    } else if s != [] {
      if OccursAt(s, pat, 0) {
        DeleteShrinks(s[|pat|..], pat);
      } else {
        DeleteShrinks(s[1..], pat);
      }
    }
  }

  /** Replacing a string by itself changes nothing, including the empty pattern. */
  lemma {:induction false} ReplaceBySelf(s: string, pat: string)
    ensures ReplaceAll(s, pat, pat) == s
    decreases |s|
  {
    if pat == [] {
      InterleaveEmpty(s);
    } else if s != [] {
      if OccursAt(s, pat, 0) {
        ReplaceBySelf(s[|pat|..], pat);
        assert s == s[..|pat|] + s[|pat|..];
      } else {
        ReplaceBySelf(s[1..], pat);
        assert s == [s[0]] + s[1..];
      }
    }
  }

  lemma {:induction false} InterleaveEmpty(s: string)
    ensures Interleave(s, []) == s
    decreases |s|
  {
    if s != [] {
      InterleaveEmpty(s[1..]);
      assert s == [s[0]] + s[1..];
    }
  }

  /** No occurrence of `pat` in `a + b` starts inside `a` and ends inside `b`. */
  predicate NoStraddle(a: string, b: string, pat: string) {
    forall i :: 0 <= i < |a| < i + |pat| ==> !OccursAt(a + b, pat, i)
  }

  /** When no occurrence straddles the boundary, replacing in a concatenation
      is replacing in each half. */
  lemma {:induction false} ReplaceConcat(a: string, b: string, pat: string, rep: string)
    requires pat != []
    requires NoStraddle(a, b, pat)
    ensures ReplaceAll(a + b, pat, rep) == ReplaceAll(a, pat, rep) + ReplaceAll(b, pat, rep)
    decreases |a|
  {
    if a == [] {
      assert a + b == b;
    } else {
      var s := a + b;
      if OccursAt(s, pat, 0) {
        assert a[..|pat|] == s[..|pat|];
        NoStraddleDrop(a, b, pat, |pat|);
        ReplaceConcat(a[|pat|..], b, pat, rep);
      } else {
        if |pat| <= |a| {
          assert s[..|pat|] == a[..|pat|];
        }
        NoStraddleDrop(a, b, pat, 1);
        ReplaceConcat(a[1..], b, pat, rep);
      }
    }
  }

  lemma NoStraddleDrop(a: string, b: string, pat: string, k: nat)
    requires k <= |a|
    requires NoStraddle(a, b, pat)
    ensures (a + b)[k..] == a[k..] + b
    ensures NoStraddle(a[k..], b, pat)
  {
    var s := a + b;
    var a' := a[k..];
    assert s[k..] == a' + b;
    forall i | 0 <= i < |a'| < i + |pat| && OccursAt(a' + b, pat, i)
      ensures false
    {
      assert s[i + k..i + k + |pat|] == (a' + b)[i..i + |pat|];
      assert OccursAt(s, pat, i + k);
    }
  }

  /** When no occurrence of `pat` starts inside `a`, replacing in `a + b`
      leaves `a` alone and replaces in `b`. */
  lemma ReplacePrefixFree(a: string, b: string, pat: string, rep: string)
    requires pat != []
    requires forall i :: 0 <= i < |a| ==> !OccursAt(a + b, pat, i)
    ensures ReplaceAll(a + b, pat, rep) == a + ReplaceAll(b, pat, rep)
  {
    forall i | 0 <= i <= |a| ensures !OccursAt(a, pat, i) {
      if i < |a| && OccursAt(a, pat, i) {
        assert (a + b)[i..i + |pat|] == a[i..i + |pat|];
        assert OccursAt(a + b, pat, i);
      }
    }
    ReplaceAbsent(a, pat, rep);
    ReplaceConcat(a, b, pat, rep);
  }

  /** If the only occurrence of `pat` in `a + pat + b` is the one after `a`,
      replacing every occurrence cuts out exactly that one. */
  lemma ReplaceSingle(a: string, b: string, pat: string, rep: string)
    requires pat != []
    requires forall i :: 0 <= i <= |a + pat + b| && OccursAt(a + pat + b, pat, i) ==> i == |a|
    ensures ReplaceAll(a + pat + b, pat, rep) == a + rep + b
  {
    var s := a + pat + b;
    var t := pat + b;
    assert s == a + t;
    assert NoStraddle(a, t, pat);
    ReplaceConcat(a, t, pat, rep);
    NoOccurrenceInPrefix(a, t, pat);
    ReplaceAbsent(a, pat, rep);
    NoOccurrenceInSuffix(a + pat, b, pat);
    ReplaceAbsent(b, pat, rep);
    assert OccursAt(t, pat, 0);
    assert t[|pat|..] == b;
    assert ReplaceAll(t, pat, rep) == rep + ReplaceAll(b, pat, rep);
  }

  /** When the `j`-th character of `pat` appears in `a + pat + b` at no
      position from `j` on other than its own place in the `pat` after `a`,
      replacing every occurrence cuts out exactly that one. */
  lemma ReplaceMarked(a: string, b: string, pat: string, rep: string, j: nat)
    requires j < |pat|
    requires forall m :: j <= m < |a + pat + b| && m != |a| + j ==> (a + pat + b)[m] != pat[j]
    ensures ReplaceAll(a + pat + b, pat, rep) == a + rep + b
  {
    var s := a + pat + b;
    forall i | 0 <= i <= |s| && OccursAt(s, pat, i)
      ensures i == |a|
    {
      assert s[i..i + |pat|][j] == pat[j];
    }
    ReplaceSingle(a, b, pat, rep);
  }

  /** When the first character of `pat` appears in `a + pat + b` only at
      the start of the `pat` after `a` and at places in `b` where the
      character after it differs from `pat`'s second, replacing every
      occurrence cuts out exactly that one. */
  lemma ReplaceLed(a: string, b: string, pat: string, rep: string)
    requires |pat| >= 2
    requires Lacks(a, pat[0]) && Lacks(pat[1..], pat[0])
    requires forall m :: 0 <= m < |b| - 1 && b[m] == pat[0] ==> b[m + 1] != pat[1]
    ensures ReplaceAll(a + pat + b, pat, rep) == a + rep + b
  {
    var s := a + pat + b;
    forall i | 0 <= i <= |s| && OccursAt(s, pat, i)
      ensures i == |a|
    {
      assert s[i..i + |pat|][0] == pat[0] && s[i..i + |pat|][1] == pat[1];
    }
    ReplaceSingle(a, b, pat, rep);
  }

  lemma NoOccurrenceInPrefix(a: string, t: string, pat: string)
    requires pat != []
    requires forall i :: 0 <= i <= |a + t| && OccursAt(a + t, pat, i) ==> i == |a|
    ensures forall i :: 0 <= i <= |a| ==> !OccursAt(a, pat, i)
  {
    forall i | 0 <= i <= |a| && OccursAt(a, pat, i)
      ensures false
    {
      assert (a + t)[i..i + |pat|] == a[i..i + |pat|];
      assert OccursAt(a + t, pat, i);
    }
  }

  lemma NoOccurrenceInSuffix(u: string, b: string, pat: string)
    requires pat != [] && |pat| <= |u|
    requires forall i :: 0 <= i <= |u + b| && OccursAt(u + b, pat, i) ==> i == |u| - |pat|
    ensures forall i :: 0 <= i <= |b| ==> !OccursAt(b, pat, i)
  {
    forall i | 0 <= i <= |b| && OccursAt(b, pat, i)
      ensures false
    {
      assert (u + b)[|u| + i..|u| + i + |pat|] == b[i..i + |pat|];
      assert OccursAt(u + b, pat, |u| + i);
    }
  }

  // ---------------------------------------------------------------------
  // str.strip()
  // ---------------------------------------------------------------------

  /** How many whitespace characters `s` starts with. */
  function LeadingSpace(s: string): (n: nat)
    ensures n <= |s| && AllSpace(s[..n]) && (n == |s| || !IsSpace(s[n]))
    decreases |s|
  {
    if s != [] && IsSpace(s[0]) then
      var n := 1 + LeadingSpace(s[1..]);
      assert s[..n] == [s[0]] + s[1..][..n - 1];
      n
    else 0
  }

  /** How many whitespace characters `s` ends with. */
  function TrailingSpace(s: string): (n: nat)
    ensures n <= |s| && AllSpace(s[|s| - n..]) && (n == |s| || !IsSpace(s[|s| - n - 1]))
    decreases |s|
  {
    if s != [] && IsSpace(s[|s| - 1]) then
      var t := s[..|s| - 1];
      var n := 1 + TrailingSpace(t);
      assert s[|s| - n..] == t[|t| - (n - 1)..] + [s[|s| - 1]];
      n
    else 0
  }

  /** `s.lstrip()`: the suffix left after dropping leading whitespace. */
  function TrimStart(s: string): (r: string)
    ensures |r| <= |s| && AllSpace(s[..|s| - |r|])
    ensures r == [] || !IsSpace(r[0])
  {
    s[LeadingSpace(s)..]
  }

  /** `s.rstrip()`: the prefix left after dropping trailing whitespace. */
  function TrimEnd(s: string): (r: string)
    ensures |r| <= |s| && AllSpace(s[|r|..])
    ensures r == [] || !IsSpace(r[|r| - 1])
  {
    s[..|s| - TrailingSpace(s)]
  }

  /** `s.strip()`. */
  function Strip(s: string): (r: string)
    ensures NoEdgeSpace(r)
    ensures |r| <= |s|
  {
    TrimEnd(TrimStart(s))
  }

  /** Stripping removes exactly the whitespace padding around a core that
      neither starts nor ends with whitespace. */
  lemma {:induction false} StripPadded(lead: string, core: string, trail: string)
    requires AllSpace(lead) && AllSpace(trail) && NoEdgeSpace(core)
    ensures Strip(lead + core + trail) == core
  {
    var s := lead + core + trail;
    if core == [] {
      assert s == (lead + trail) + [];
      TrimStartPadded(lead + trail, []);
      assert TrimStart(s) == [];
    } else {
      assert s == lead + (core + trail);
      TrimStartPadded(lead, core + trail);
      assert TrimStart(s) == core + trail;
      TrimEndPadded(core, trail);
    }
  }

  lemma TrimStartPadded(lead: string, s: string)
    requires AllSpace(lead)
    requires s == [] || !IsSpace(s[0])
    ensures TrimStart(lead + s) == s
  {
    LeadingSpacePadded(lead, s);
    assert (lead + s)[|lead|..] == s;
  }

  lemma {:induction false} LeadingSpacePadded(lead: string, s: string)
    requires AllSpace(lead)
    requires s == [] || !IsSpace(s[0])
    ensures LeadingSpace(lead + s) == |lead|
    decreases |lead|
  {
    if lead == [] {
      assert lead + s == s;
    } else {
      assert (lead + s)[1..] == lead[1..] + s;
      LeadingSpacePadded(lead[1..], s);
    }
  }

  lemma TrimEndPadded(s: string, trail: string)
    requires AllSpace(trail)
    requires s == [] || !IsSpace(s[|s| - 1])
    ensures TrimEnd(s + trail) == s
  {
    TrailingSpacePadded(s, trail);
    assert (s + trail)[..|s|] == s;
  }

  lemma {:induction false} TrailingSpacePadded(s: string, trail: string)
    requires AllSpace(trail)
    requires s == [] || !IsSpace(s[|s| - 1])
    ensures TrailingSpace(s + trail) == |trail|
    decreases |trail|
  {
    if trail == [] {
      assert s + trail == s;
    } else {
      var t := s + trail;
      assert t[..|t| - 1] == s + trail[..|trail| - 1];
      TrailingSpacePadded(s, trail[..|trail| - 1]);
    }
  }

  /** `s.strip().strip() == s.strip()`. */
  lemma StripIdempotent(s: string)
    ensures Strip(Strip(s)) == Strip(s)
  {
    var r := Strip(s);
    assert [] + r + [] == r;
    StripPadded([], r, []);
  }

  // ---------------------------------------------------------------------
  // str.upper()
  // ---------------------------------------------------------------------

  /** The upper case of one character, for every character whose upper case
      is a single ASCII letter: the ASCII small letters, the dotless `ı`
      (`I`) and the long `ſ` (`S`). Every other character is kept. */
  function UpperChar(c: char): char {
    if 'a' <= c <= 'z' then (c as int - 32) as char
    else if c == DOTLESS_I then 'I'
    else if c == LONG_S then 'S'
    else c
  }

  const DOTLESS_I: char := '\U{0131}'
  const LONG_S: char := '\U{017F}'

  /** `s.upper()`, character by character, as far as ASCII capitals go. */
  function Upper(s: string): string {
    seq(|s|, i requires 0 <= i < |s| => UpperChar(s[i]))
  }
}
