/**
  The fragment of Python's `re` that the log-line decoder produces: literal
  characters (some backslash-escaped) and named groups `(?P<name>.*)`.
  `Parse` reads the pattern text as `re.compile` would and refuses anything
  outside the fragment; `Match` is `re.match` on the parsed pattern: anchored
  at the start of the line, not required to reach its end, `.` stopping at a
  line feed, every `.*` greedy with backtracking.
 */
module Regex {
  import opened Wrappers
  import opened PyText

  datatype Piece = Char(c: char) | Group(name: string)

  type Pattern = seq<Piece>

  /** One named group and the text it captured, as `groupdict()` lists them. */
  datatype Capture = Capture(name: string, value: string)

  // ---------------------------------------------------------------------
  // Reading the pattern text
  // ---------------------------------------------------------------------

  predicate IsDigit(c: char) {
    '0' <= c <= '9'
  }

  predicate IsAsciiLetter(c: char) {
    ('a' <= c <= 'z') || ('A' <= c <= 'Z')
  }

  predicate IsNameChar(c: char) {
    IsAsciiLetter(c) || IsDigit(c) || c == '_'
  }

  /** A group name `re` accepts, over ASCII: a letter or `_`, then letters, digits or `_`. */
  predicate IsIdentifier(s: string) {
    && s != []
    && (IsAsciiLetter(s[0]) || s[0] == '_')
    && forall i :: 0 <= i < |s| ==> IsNameChar(s[i])
  }

  /** Characters that stand for something other than themselves outside a
      character class (the opening `(`, `{` and `\` are read separately). */
  predicate IsSpecial(c: char) {
    c == '.' || c == '^' || c == '$' || c == '*' || c == '+' || c == '?' ||
    c == '[' || c == '|' || c == ')'
  }

  /** A backslash before anything but an ASCII letter or digit is that character itself. */
  predicate IsEscapable(c: char) {
    !IsAsciiLetter(c) && !IsDigit(c)
  }

  /** The number of leading name characters of `t`. */
  function NameLength(t: string): (n: nat)
    ensures n <= |t|
    ensures forall i :: 0 <= i < n ==> IsNameChar(t[i])
    ensures n < |t| ==> !IsNameChar(t[n])
  {
    if t != [] && IsNameChar(t[0]) then 1 + NameLength(t[1..]) else 0
  }

  const GROUP_OPEN: string := "(?P<"
  const GROUP_CLOSE: string := ">.*)"

  /** The pattern text of a named group capturing anything up to a line feed. */
  function GroupText(name: string): string {
    GROUP_OPEN + name + GROUP_CLOSE
  }

  function Prepend(x: Piece, rest: Option<Pattern>): Option<Pattern> {
    if rest.Some? then Some([x] + rest.value) else None
  }

  /** The group that `t` starts with: `(?P<`, an identifier, `>.*)`. */
  function GroupToken(t: string): (r: Option<(Piece, nat)>)
    ensures r.Some? ==> 0 < r.value.1 <= |t|
  {
    if StartsWith(t, GROUP_OPEN) then
      var n := NameLength(t[4..]);
      if IsIdentifier(t[4..4 + n]) && StartsWith(t[4 + n..], GROUP_CLOSE) then
        Some((Group(t[4..4 + n]), 8 + n))
      else None
    else None
  }

  /** The first item of a non-empty pattern text and the number of
      characters it takes; `None` when the text starts with anything outside
      the fragment (another construct, a bad escape, a bad group name, a
      quantifier). */
  function Token(t: string): (r: Option<(Piece, nat)>)
    requires t != []
    ensures r.Some? ==> 0 < r.value.1 <= |t|
  {
    if t[0] == '\\' then
      if |t| >= 2 && IsEscapable(t[1]) then Some((Char(t[1]), 2)) else None
    else if t[0] == '(' then GroupToken(t)
    else if t[0] == '{' then
      if |t| >= 2 && (IsDigit(t[1]) || t[1] == ',') then None else Some((Char('{'), 1))
    else if IsSpecial(t[0]) then None
    else Some((Char(t[0]), 1))
  }

  /** `t` read as a pattern of the fragment, token by token; `None` for
      anything else. */
  function Parse(t: string): Option<Pattern>
    decreases |t|
  {
    if t == [] then Some([])
    else
      var h := Token(t);
      if h.None? then None else Prepend(h.value.0, Parse(t[h.value.1..]))
  }

  /** The pattern as a plain string of literal characters. */
  function Chars(s: string): (p: Pattern)
    ensures |p| == |s| && forall i :: 0 <= i < |s| ==> p[i] == Char(s[i])
  {
    seq(|s|, i requires 0 <= i < |s| => Char(s[i]))
  }

  /** The names of the groups of `p`, in order. */
  function GroupNames(p: Pattern): seq<string> {
    if p == [] then []
    else (if p[0].Group? then [p[0].name] else []) + GroupNames(p[1..])
  }

  predicate Distinct(names: seq<string>) {
    forall i, j :: 0 <= i < j < |names| ==> names[i] != names[j]
  }

  /** What `re.compile` gives for `t`: the parsed pattern, unless it lies
      outside the fragment or names a group twice (which `re` refuses). */
  function Compile(t: string): Option<Pattern> {
    var p := Parse(t);
    if p.Some? && Distinct(GroupNames(p.value)) then p else None
  }

  /** `x` does not end with a `{` that `y` would turn into a quantifier. */
  predicate BraceSafe(x: string, y: string) {
    !(x != [] && x[|x| - 1] == '{' && y != [] && (IsDigit(y[0]) || y[0] == ','))
  }

  lemma NameLengthConcat(a: string, b: string)
    requires NameLength(a) < |a|
    ensures NameLength(a + b) == NameLength(a)
    decreases |a|
  {
    if IsNameChar(a[0]) {
      assert (a + b)[1..] == a[1..] + b;
      NameLengthConcat(a[1..], b);
    }
  }

  /** A token of `x` is read the same when text follows, unless `x` is a
      lone `{` that the text would make a quantifier. */
  lemma TokenConcat(x: string, y: string)
    requires x != [] && Token(x).Some?
    requires BraceSafe(x, y)
    ensures Token(x + y) == Token(x)
  {
    var t := x + y;
    assert t[0] == x[0];
    if x[0] == '\\' {
      assert t[1] == x[1];
    } else if x[0] == '(' {
      GroupTokenConcat(x, y);
    } else if x[0] == '{' {
      if |x| >= 2 {
        assert t[1] == x[1];
      }
    }
  }

  lemma GroupTokenConcat(x: string, y: string)
    requires GroupToken(x).Some?
    ensures GroupToken(x + y) == GroupToken(x)
  {
    var t := x + y;
    var n := NameLength(x[4..]);
    assert x[..4] == GROUP_OPEN && t[..4] == GROUP_OPEN;
    assert x[4 + n..][..4] == GROUP_CLOSE;
    assert x[4..][n] == x[4 + n..][0] == '>';
    assert t[4..] == x[4..] + y;
    NameLengthConcat(x[4..], y);
    assert t[4..4 + n] == x[4..4 + n];
    assert t[4 + n..][..4] == x[4 + n..][..4];
  }

  /** Reading a concatenation is reading each part, provided the first part
      does not end in a `{` that the second would make a quantifier. */
  lemma {:induction false} ParseConcat(x: string, y: string)
    requires Parse(x).Some? && Parse(y).Some?
    requires BraceSafe(x, y)
    ensures Parse(x + y) == Some(Parse(x).value + Parse(y).value)
    decreases |x|
  {
    if x == [] {
      assert x + y == y;
      assert [] + Parse(y).value == Parse(y).value;
    } else {
      var k := Token(x).value.1;
      ParseRemainder(x, y);
      ParseConcat(x[k..], y);
      var pc, a, b := Token(x).value.0, Parse(x[k..]).value, Parse(y).value;
      ParseAfterToken(x, pc, k, a);
      ParseConcatStep(x, y, pc, k, a, b);
    }
  }

  /** What remains of `x` after its first token still reads, and is still
      safe to put before `y`. */
  lemma ParseRemainder(x: string, y: string)
    requires x != [] && Parse(x).Some? && BraceSafe(x, y)
    ensures Token(x).Some?
    ensures Parse(x[Token(x).value.1..]).Some? && BraceSafe(x[Token(x).value.1..], y)
  {
    var k := Token(x).value.1;
    if k < |x| {
      assert x[k..][|x[k..]| - 1] == x[|x| - 1];
    }
  }

  /** One token of `ParseConcat`: when the rest of `x` followed by `y`
      reads as the two readings joined, `x + y` reads as the first token of
      `x` followed by them. */
  lemma ParseConcatStep(x: string, y: string, pc: Piece, k: nat, a: Pattern, b: Pattern)
    requires x != [] && Token(x) == Some((pc, k)) && BraceSafe(x, y)
    requires Parse(x[k..] + y) == Some(a + b)
    ensures Parse(x + y) == Some(([pc] + a) + b)
  {
    TokenConcat(x, y);
    assert (x + y)[k..] == x[k..] + y;
    ParseAfterToken(x + y, pc, k, a + b);
    assert [pc] + (a + b) == ([pc] + a) + b;
  }

  /** Reading past one token: a text whose first token is `pc`, `k`
      characters long, and whose remainder reads as `rest`, reads as `pc`
      followed by `rest`. */
  lemma ParseAfterToken(t: string, pc: Piece, k: nat, rest: Pattern)
    requires t != [] && Token(t) == Some((pc, k))
    requires Parse(t[k..]) == Some(rest)
    ensures Parse(t) == Some([pc] + rest)
  {
  }

  /** Text in which every character stands for itself wherever it is put. */
  predicate Plain(s: string) {
    forall i :: 0 <= i < |s| ==> !IsSpecial(s[i]) && s[i] != '\\' && s[i] != '(' && s[i] != '{'
  }

  /** Plain text reads as its own characters. */
  lemma {:induction false} ParsePlain(s: string)
    requires Plain(s)
    ensures Parse(s) == Some(Chars(s))
    decreases |s|
  {
    if s != [] {
      ParsePlain(s[1..]);
      assert Chars(s) == [Char(s[0])] + Chars(s[1..]);
    }
  }

  /** A named group reads as one group piece. */
  lemma ParseGroup(name: string)
    requires IsIdentifier(name)
    ensures Parse(GroupText(name)) == Some([Group(name)])
  {
    var t := GroupText(name);
    assert t[..4] == GROUP_OPEN;
    assert t[0] == '(';
    assert t[4..] == name + GROUP_CLOSE;
    NameLengthPrefix(name, GROUP_CLOSE);
    assert t[4..4 + |name|] == name;
    assert t[4 + |name|..] == GROUP_CLOSE;
    assert t[8 + |name|..] == [];
    assert !IsNameChar(GROUP_CLOSE[0]);
    assert StartsWith(t, GROUP_OPEN);
    assert NameLength(t[4..]) == |name|;
    assert StartsWith(t[4 + |name|..], GROUP_CLOSE);
    assert Token(t) == Some((Group(name), 8 + |name|));
    assert Parse(t[8 + |name|..]) == Some([]);
    assert [Group(name)] + [] == [Group(name)];
  }

  lemma {:induction false} NameLengthPrefix(name: string, rest: string)
    requires forall i :: 0 <= i < |name| ==> IsNameChar(name[i])
    requires rest == [] || !IsNameChar(rest[0])
    ensures NameLength(name + rest) == |name|
    decreases |name|
  {
    if name == [] {
      assert name + rest == rest;
    } else {
      assert (name + rest)[1..] == name[1..] + rest;
      NameLengthPrefix(name[1..], rest);
    }
  }

  lemma {:induction false} GroupNamesConcat(p: Pattern, q: Pattern)
    ensures GroupNames(p + q) == GroupNames(p) + GroupNames(q)
    decreases |p|
  {
    if p != [] {
      assert (p + q)[1..] == p[1..] + q;
      GroupNamesConcat(p[1..], q);
    } else {
      assert p + q == q;
    }
  }

  lemma {:induction false} GroupNamesChars(s: string)
    ensures GroupNames(Chars(s)) == []
    decreases |s|
  {
    if s != [] {
      assert Chars(s)[1..] == Chars(s[1..]);
      GroupNamesChars(s[1..]);
    }
  }

  // ---------------------------------------------------------------------
  // Matching
  // ---------------------------------------------------------------------

  /** How far `.*` can reach: the length of the longest prefix without a line feed. */
  function Run(s: string): (n: nat)
    ensures n <= |s|
    ensures forall i :: 0 <= i < n ==> s[i] != '\n'
    ensures n < |s| ==> s[n] == '\n'
  {
    if s == [] || s[0] == '\n' then 0 else 1 + Run(s[1..])
  }

  /** `re.match(p, s)`: the captures of the first match found, or `None`. */
  function Match(p: Pattern, s: string): Option<seq<Capture>>
    decreases |p|, 0
  {
    if p == [] then Some([])
    else match p[0]
      case Char(c) => if s != [] && s[0] == c then Match(p[1..], s[1..]) else None
      case Group(name) => Longest(name, p[1..], s, Run(s))
  }

  /** The group `name` followed by `rest`, trying captures of length `k`, then
      shorter ones, down to the empty capture. */
  function Longest(name: string, rest: Pattern, s: string, k: nat): Option<seq<Capture>>
    requires k <= |s|
    decreases |rest|, 1, k
  {
    match Match(rest, s[k..])
    case Some(caps) => Some([Capture(name, s[..k])] + caps)
    case None => if k == 0 then None else Longest(name, rest, s, k - 1)
  }

  // ---------------------------------------------------------------------
  // What a match means
  // ---------------------------------------------------------------------

  function GroupCount(p: Pattern): nat {
    |GroupNames(p)|
  }

  predicate NoNewline(s: string) {
    forall i :: 0 <= i < |s| ==> s[i] != '\n'
  }

  /** The text `p` stands for when its groups take the values `vals`. */
  function Fill(p: Pattern, vals: seq<string>): string
    requires |vals| == GroupCount(p)
  {
    if p == [] then []
    else match p[0]
      case Char(c) => [c] + Fill(p[1..], vals)
      case Group(_) => vals[0] + Fill(p[1..], vals[1..])
  }

  /** The captures `groupdict()` would list for those values. */
  function Captures(p: Pattern, vals: seq<string>): seq<Capture>
    requires |vals| == GroupCount(p)
  {
    if p == [] then []
    else match p[0]
      case Char(_) => Captures(p[1..], vals)
      case Group(name) => [Capture(name, vals[0])] + Captures(p[1..], vals[1..])
  }

  function Values(caps: seq<Capture>): seq<string> {
    seq(|caps|, i requires 0 <= i < |caps| => caps[i].value)
  }

  /** `s` starts with the text of `p` for values that `.*` can take. */
  predicate Fits(p: Pattern, vals: seq<string>, s: string) {
    && |vals| == GroupCount(p)
    && (forall i :: 0 <= i < |vals| ==> NoNewline(vals[i]))
    && StartsWith(s, Fill(p, vals))
  }

  /** A match is a genuine one: the captured values, put back into the
      pattern, spell a prefix of the line, and each group's capture is
      listed under its name, in order. */
  lemma {:induction false} MatchSound(p: Pattern, s: string)
    requires Match(p, s).Some?
    ensures var caps := Match(p, s).value;
            && Fits(p, Values(caps), s)
            && Captures(p, Values(caps)) == caps
    decreases |p|
  {
    var caps := Match(p, s).value;
    if p != [] {
      match p[0]
      case Char(c) =>
        MatchSound(p[1..], s[1..]);
        assert s == [c] + s[1..];
      case Group(name) =>
        var k := LongestWitness(name, p[1..], s, Run(s));
        var rest := Match(p[1..], s[k..]).value;
        MatchSound(p[1..], s[k..]);
        assert caps == [Capture(name, s[..k])] + rest;
        ValuesCons(Capture(name, s[..k]), rest);
        GroupFits(p, s[..k], Values(rest), s);
    }
  }

  lemma ValuesCons(c: Capture, caps: seq<Capture>)
    ensures Values([c] + caps) == [c.value] + Values(caps)
  {
  }

  /** A group's value that `.*` can take, followed by values that fit the
      rest of the pattern, fit the whole pattern. */
  lemma GroupFits(p: Pattern, v: string, vals: seq<string>, s: string)
    requires p != [] && p[0].Group?
    requires |v| <= |s| && s[..|v|] == v && NoNewline(v)
    requires Fits(p[1..], vals, s[|v|..])
    ensures Fits(p, [v] + vals, s)
    ensures Captures(p, [v] + vals) == [Capture(p[0].name, v)] + Captures(p[1..], vals)
  {
    var all := [v] + vals;
    assert all[1..] == vals;
    assert GroupNames(p) == [p[0].name] + GroupNames(p[1..]);
    var f := Fill(p[1..], vals);
    assert Fill(p, all) == v + f;
    assert s == v + s[|v|..];
    assert s[|v|..][..|f|] == f;
    assert (v + f) == s[..|v| + |f|];
    forall i | 0 <= i < |all| ensures NoNewline(all[i]) {
      if i > 0 {
        assert all[i] == vals[i - 1];
      }
    }
  }

  /** A successful `Longest` chose some length `k` at most the one it started from. */
  lemma {:induction false} LongestWitness(name: string, rest: Pattern, s: string, k0: nat) returns (k: nat)
    requires k0 <= Run(s)
    requires Longest(name, rest, s, k0).Some?
    ensures k <= k0 && Match(rest, s[k..]).Some?
    ensures Longest(name, rest, s, k0) == Some([Capture(name, s[..k])] + Match(rest, s[k..]).value)
    ensures forall j :: k < j <= k0 ==> Match(rest, s[j..]).None?
    decreases k0
  {
    if Match(rest, s[k0..]).Some? {
      k := k0;
    } else {
      assert k0 != 0;
      assert Longest(name, rest, s, k0) == Longest(name, rest, s, k0 - 1);
      k := LongestWitness(name, rest, s, k0 - 1);
    }
  }

  /** Conversely, whenever some values fit, the match succeeds. */
  lemma {:induction false} MatchComplete(p: Pattern, vals: seq<string>, s: string)
    requires Fits(p, vals, s)
    ensures Match(p, s).Some?
    decreases |p|
  {
    if p != [] {
      match p[0]
      case Char(c) =>
        var f := Fill(p[1..], vals);
        assert s[..1 + |f|] == [c] + f;
        assert s[1..][..|f|] == s[..1 + |f|][1..];
        MatchComplete(p[1..], vals, s[1..]);
      case Group(name) =>
        var v := vals[0];
        var f := Fill(p[1..], vals[1..]);
        assert Fill(p, vals) == v + f;
        assert s[..|v| + |f|] == v + f;
        assert s[..|v|] == v;
        assert s[|v|..][..|f|] == (v + f)[|v|..];
        RunCovers(s, |v|);
        MatchComplete(p[1..], vals[1..], s[|v|..]);
        LongestFinds(name, p[1..], s, |v|, Run(s));
    }
  }

  /** `.*` can reach over a prefix without a line feed. */
  lemma RunCovers(s: string, n: nat)
    requires n <= |s| && forall i :: 0 <= i < n ==> s[i] != '\n'
    ensures n <= Run(s)
  {
  }

  lemma {:induction false} LongestFinds(name: string, rest: Pattern, s: string, k: nat, k0: nat)
    requires k <= k0 <= |s|
    requires Match(rest, s[k..]).Some?
    ensures Longest(name, rest, s, k0).Some?
    decreases k0
  {
    if k0 > k && Match(rest, s[k0..]).None? {
      LongestFinds(name, rest, s, k, k0 - 1);
    }
  }

  /** `re.match` succeeds exactly when some values of the groups fit the line. */
  lemma MatchExists(p: Pattern, s: string)
    ensures Match(p, s).Some? <==> exists vals :: Fits(p, vals, s)
  {
    if Match(p, s).Some? {
      MatchSound(p, s);
    }
    if exists vals :: Fits(p, vals, s) {
      var vals :| Fits(p, vals, s);
      MatchComplete(p, vals, s);
    }
  }

  // ---------------------------------------------------------------------
  // Reading back the values a line was written with
  // ---------------------------------------------------------------------

  /** The literal characters at the head of `p`, up to its first group. */
  function LeadingChars(p: Pattern): string {
    if p == [] || p[0].Group? then [] else [p[0].c] + LeadingChars(p[1..])
  }

  lemma {:induction false} MatchNeedsLeadingChars(p: Pattern, s: string)
    requires Match(p, s).Some?
    ensures StartsWith(s, LeadingChars(p))
    decreases |p|
  {
    if p != [] && p[0].Char? {
      MatchNeedsLeadingChars(p[1..], s[1..]);
      assert s == [s[0]] + s[1..];
    }
  }

  /** Each group's greedy capture is the intended value: no longer capture
      (within the line feed limit) is followed by the literal text that comes
      after the group in the pattern. */
  predicate Unambiguous(p: Pattern, vals: seq<string>, tail: string)
    requires |vals| == GroupCount(p)
    decreases |p|
  {
    if p == [] then true
    else match p[0]
      case Char(_) => Unambiguous(p[1..], vals, tail)
      case Group(_) =>
        var s := Fill(p, vals) + tail;
        && (forall k :: |vals[0]| < k <= Run(s) ==> !StartsWith(s[k..], LeadingChars(p[1..])))
        && Unambiguous(p[1..], vals[1..], tail)
  }

  /** The round trip: a line written from the pattern with values that `.*`
      can take, and that leave no group a longer choice, is matched with
      exactly those values, whatever follows it. */
  lemma {:induction false} MatchRoundTrip(p: Pattern, vals: seq<string>, tail: string)
    requires |vals| == GroupCount(p)
    requires forall i :: 0 <= i < |vals| ==> NoNewline(vals[i])
    requires Unambiguous(p, vals, tail)
    ensures Match(p, Fill(p, vals) + tail) == Some(Captures(p, vals))
    decreases |p|
  {
    var s := Fill(p, vals) + tail;
    if p != [] {
      match p[0]
      case Char(c) =>
        assert s[1..] == Fill(p[1..], vals) + tail;
        MatchRoundTrip(p[1..], vals, tail);
      case Group(name) =>
        var v := vals[0];
        assert s == v + (Fill(p[1..], vals[1..]) + tail);
        assert s[|v|..] == Fill(p[1..], vals[1..]) + tail;
        assert s[..|v|] == v;
        RunCovers(s, |v|);
        forall i | 0 <= i < |vals[1..]| ensures NoNewline(vals[1..][i]) {
          assert vals[1..][i] == vals[i + 1];
        }
        MatchRoundTrip(p[1..], vals[1..], tail);
        forall k | |v| < k <= Run(s) ensures Match(p[1..], s[k..]).None? {
          if Match(p[1..], s[k..]).Some? {
            MatchNeedsLeadingChars(p[1..], s[k..]);
          }
        }
        LongestSkip(name, p[1..], s, |v|, Run(s));
    }
  }

  /** `Longest` passes over the lengths at which the rest cannot match. */
  lemma {:induction false} LongestSkip(name: string, rest: Pattern, s: string, k: nat, k0: nat)
    requires k <= k0 <= |s|
    requires forall j :: k < j <= k0 ==> Match(rest, s[j..]).None?
    ensures Longest(name, rest, s, k0) == Longest(name, rest, s, k)
    decreases k0
  {
    if k0 > k {
      LongestSkip(name, rest, s, k, k0 - 1);
    }
  }

  // ---------------------------------------------------------------------
  // Patterns assembled from literal text and groups
  // ---------------------------------------------------------------------

  /** One literal character in front of a pattern: the step of `CharsPrefix`. */
  lemma CharStep(ch: char, q: Pattern, vals: seq<string>)
    requires |vals| == GroupCount(q)
    ensures GroupCount([Char(ch)] + q) == GroupCount(q)
    ensures Fill([Char(ch)] + q, vals) == [ch] + Fill(q, vals)
    ensures Captures([Char(ch)] + q, vals) == Captures(q, vals)
    ensures LeadingChars([Char(ch)] + q) == [ch] + LeadingChars(q)
  {
    assert ([Char(ch)] + q)[1..] == q;
  }

  /** Literal text in front of a pattern adds itself to the text it stands
      for, to its leading characters, and nothing to its captures. */
  lemma {:induction false} CharsPrefix(s: string, q: Pattern, vals: seq<string>)
    requires |vals| == GroupCount(q)
    ensures GroupCount(Chars(s) + q) == GroupCount(q)
    ensures Fill(Chars(s) + q, vals) == s + Fill(q, vals)
    ensures Captures(Chars(s) + q, vals) == Captures(q, vals)
    ensures LeadingChars(Chars(s) + q) == s + LeadingChars(q)
    decreases |s|
  {
    if s == [] {
      assert Chars(s) + q == q;
    } else {
      var r := Chars(s[1..]) + q;
      assert Chars(s) + q == [Char(s[0])] + r;
      CharsPrefix(s[1..], q, vals);
      CharStep(s[0], r, vals);
      assert s == [s[0]] + s[1..];
      assert [s[0]] + (s[1..] + Fill(q, vals)) == s + Fill(q, vals);
      assert [s[0]] + (s[1..] + LeadingChars(q)) == s + LeadingChars(q);
    }
  }

  /** Literal text in front of a pattern changes nothing about whether its
      groups' values are the greedy choices. */
  lemma {:induction false} CharsUnambiguous(s: string, q: Pattern, vals: seq<string>, tail: string)
    requires |vals| == GroupCount(q)
    ensures GroupCount(Chars(s) + q) == GroupCount(q)
    ensures Unambiguous(Chars(s) + q, vals, tail) == Unambiguous(q, vals, tail)
    decreases |s|
  {
    GroupNamesConcat(Chars(s), q);
    GroupNamesChars(s);
    if s == [] {
      assert Chars(s) + q == q;
    } else {
      var p := Chars(s) + q;
      assert p[0] == Char(s[0]);
      assert p[1..] == Chars(s[1..]) + q;
      CharsUnambiguous(s[1..], q, vals, tail);
    }
  }

  /** A group in front of a pattern takes the first value. */
  lemma GroupPrefix(name: string, q: Pattern, vals: seq<string>)
    requires |vals| == 1 + GroupCount(q)
    ensures GroupCount([Group(name)] + q) == 1 + GroupCount(q)
    ensures Fill([Group(name)] + q, vals) == vals[0] + Fill(q, vals[1..])
    ensures Captures([Group(name)] + q, vals) == [Capture(name, vals[0])] + Captures(q, vals[1..])
    ensures LeadingChars([Group(name)] + q) == []
  {
    var p := [Group(name)] + q;
    assert p[1..] == q;
    assert GroupNames(p) == [name] + GroupNames(q);
  }

  /** The greedy choice of a group in front of a pattern: no longer capture,
      up to the next line feed, is followed by the pattern's leading text. */
  lemma GroupUnambiguous(name: string, q: Pattern, vals: seq<string>, tail: string)
    requires |vals| == 1 + GroupCount(q)
    ensures GroupCount([Group(name)] + q) == 1 + GroupCount(q)
    ensures var s := vals[0] + Fill(q, vals[1..]) + tail;
            Unambiguous([Group(name)] + q, vals, tail) <==>
              && (forall k :: |vals[0]| < k <= Run(s) ==> !StartsWith(s[k..], LeadingChars(q)))
              && Unambiguous(q, vals[1..], tail)
  {
    GroupPrefix(name, q, vals);
    var p := [Group(name)] + q;
    assert p[1..] == q;
  }

  /** The captures list the pattern's groups in order. */
  lemma {:induction false} CapturesNamed(p: Pattern, vals: seq<string>)
    requires |vals| == GroupCount(p)
    ensures |Captures(p, vals)| == |GroupNames(p)|
    ensures forall i :: 0 <= i < |GroupNames(p)| ==> Captures(p, vals)[i].name == GroupNames(p)[i]
    decreases |p|
  {
    if p != [] {
      match p[0]
      case Char(_) =>
        CapturesNamed(p[1..], vals);
      case Group(name) =>
        CapturesNamed(p[1..], vals[1..]);
    }
  }

  /** When the character at position `j` of `lead` does not occur in `s`
      beyond `from + j`, no suffix of `s` that starts beyond `from` starts
      with `lead`: a group whose value ends at `from` cannot be stretched. */
  lemma NoLaterStart(s: string, lead: string, from: nat, j: nat)
    requires j < |lead|
    requires forall m :: from + j < m < |s| ==> s[m] != lead[j]
    ensures forall k :: from < k <= Run(s) ==> !StartsWith(s[k..], lead)
  {
    forall k | from < k <= Run(s)
      ensures !StartsWith(s[k..], lead)
    {
      if StartsWith(s[k..], lead) {
        assert false;
      }
    }
  }
}
