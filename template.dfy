/**
  Compiling a logging format into the pattern the decoder matches lines
  with: every `open%(token)Tclose` placeholder of a token in the map becomes
  `open'(?P<token>.*)close'` (the delimiters backslash-escaped when they are
  one of `[ ] ( )`), one token after the other in the map's order, and then
  every `%(message)s` is deleted. The leading `^` the decoder adds is the
  anchoring of `Regex.Match` and is not part of the text.
 */
module Template {
  import opened Wrappers
  import opened PyValues
  import opened PyText
  import opened TokenMaps
  import opened Regex

  const MESSAGE: string := "message"
  const MESSAGE_PLACEHOLDER: string := "%(message)s"

  /** The assertions `_decode_log_entry` raises. */
  datatype DecodeError =
    | FormatEmpty
    | FormatNotString
    | DelimitersInvalid(key: string)
    | GroupRedefined

  /** A delimiter as it is written into the pattern. */
  function Escape(delim: string): string {
    if delim in DELIMITERS_TO_ESCAPE then "\\" + delim else delim
  }

  /** The placeholder a token's entry looks for in the format. */
  function Placeholder(token: string, open: string, close: string): string {
    open + "%(" + token + ")" + TokenType(token) + close
  }

  /** The pattern text that replaces it. */
  function GroupPattern(token: string, open: string, close: string): string {
    Escape(open) + GroupText(token) + Escape(close)
  }

  /** The entry of the `i`-th key of the map. */
  function EntryAt(tm: TokenMap, i: nat): TokenEntry
    requires i < |tm.keys|
  {
    tm.values[tm.keys[i]]
  }

  /** The format after the loop has handled the first `n` keys of the map;
      the first key whose entry has fewer than two delimiters stops it. */
  function CompileFrom(tm: TokenMap, format: string, n: nat): Result<string, DecodeError>
    requires n <= |tm.keys|
  {
    if n == 0 then Ok(format)
    else
      match CompileFrom(tm, format, n - 1)
      case Err(e) => Err(e)
      case Ok(text) =>
        var d := EntryAt(tm, n - 1).delimiters;
        if |d| < 2 then Err(DelimitersInvalid(tm.keys[n - 1]))
        else Ok(ReplaceAll(text, Placeholder(tm.keys[n - 1], d[0], d[1]),
                           GroupPattern(tm.keys[n - 1], d[0], d[1])))
  }

  /** The pattern text `_decode_log_entry` builds from `format`. */
  function CompileFormat(tm: TokenMap, format: string): Result<string, DecodeError> {
    match CompileFrom(tm, format, |tm.keys|)
    case Err(e) => Err(e)
    case Ok(text) => Ok(ReplaceAll(text, MESSAGE_PLACEHOLDER, ""))
  }

  /** Once the loop has stopped at a key, later keys do not change the error. */
  lemma {:induction false} CompileFromStops(tm: TokenMap, format: string, m: nat, n: nat)
    requires m <= n <= |tm.keys|
    requires CompileFrom(tm, format, m).Err?
    ensures CompileFrom(tm, format, n) == CompileFrom(tm, format, m)
    decreases n
  {
    if n > m {
      CompileFromStops(tm, format, m, n - 1);
    }
  }

  /** Compiling fails exactly when some entry has fewer than two delimiters,
      and then it names the first such key in the map's order. */
  lemma {:induction false} CompileOutcome(tm: TokenMap, format: string, n: nat)
    requires n <= |tm.keys|
    ensures CompileFrom(tm, format, n).Ok? <==>
            forall i :: 0 <= i < n ==> |EntryAt(tm, i).delimiters| >= 2
    ensures CompileFrom(tm, format, n).Err? ==>
            exists i :: && 0 <= i < n
                        && CompileFrom(tm, format, n).error == DelimitersInvalid(tm.keys[i])
                        && |EntryAt(tm, i).delimiters| < 2
                        && forall j :: 0 <= j < i ==> |EntryAt(tm, j).delimiters| >= 2
  {
    CompileOkWhen(tm, format, n);
    if CompileFrom(tm, format, n).Err? {
      CompileErrAt(tm, format, n);
    }
  }

  /** The first half of `CompileOutcome`. */
  lemma {:induction false} CompileOkWhen(tm: TokenMap, format: string, n: nat)
    requires n <= |tm.keys|
    ensures CompileFrom(tm, format, n).Ok? <==> AllPaired(tm, n)
  {
    if n > 0 {
      CompileOkWhen(tm, format, n - 1);
      CompileOkStep(tm, format, n);
      AllPairedStep(tm, n);
      ghost var paired := |EntryAt(tm, n - 1).delimiters| >= 2;
      assert CompileFrom(tm, format, n).Ok? == (CompileFrom(tm, format, n - 1).Ok? && paired);
      assert AllPaired(tm, n) == (AllPaired(tm, n - 1) && paired);
    }
  }

  /** The first `n` entries all have two delimiters. */
  ghost predicate AllPaired(tm: TokenMap, n: nat)
    requires n <= |tm.keys|
  {
    forall i :: 0 <= i < n ==> |EntryAt(tm, i).delimiters| >= 2
  }

  lemma AllPairedStep(tm: TokenMap, n: nat)
    requires 0 < n <= |tm.keys|
    ensures AllPaired(tm, n) <==> AllPaired(tm, n - 1) && |EntryAt(tm, n - 1).delimiters| >= 2
  {
  }

  /** The second half of `CompileOutcome`. */
  lemma {:induction false} CompileErrAt(tm: TokenMap, format: string, n: nat)
    requires n <= |tm.keys|
    requires CompileFrom(tm, format, n).Err?
    ensures exists i :: && 0 <= i < n
                        && CompileFrom(tm, format, n).error == DelimitersInvalid(tm.keys[i])
                        && |EntryAt(tm, i).delimiters| < 2
                        && forall j :: 0 <= j < i ==> |EntryAt(tm, j).delimiters| >= 2
  {
    CompileFromShape(tm, format, n);
    if CompileFrom(tm, format, n - 1).Err? {
      CompileErrAt(tm, format, n - 1);
    } else {
      CompileErrLast(tm, format, n);
      var i := n - 1;
      assert CompileFrom(tm, format, n).error == DelimitersInvalid(tm.keys[i]);
    }
  }

  /** A compile that fails only at its last step fails on that step's token. */
  lemma CompileErrLast(tm: TokenMap, format: string, n: nat)
    requires 0 < n <= |tm.keys|
    requires CompileFrom(tm, format, n - 1).Ok? && CompileFrom(tm, format, n).Err?
    ensures CompileFrom(tm, format, n).error == DelimitersInvalid(tm.keys[n - 1])
    ensures |EntryAt(tm, n - 1).delimiters| < 2 && AllPaired(tm, n - 1)
  {
    CompileFromShape(tm, format, n);
    CompileOkWhen(tm, format, n - 1);
  }

  /** One step of `CompileFrom` succeeds when the steps before it did and the
      entry it replaces has two delimiters. */
  lemma CompileOkStep(tm: TokenMap, format: string, n: nat)
    requires 0 < n <= |tm.keys|
    ensures CompileFrom(tm, format, n).Ok? <==>
            CompileFrom(tm, format, n - 1).Ok? && |EntryAt(tm, n - 1).delimiters| >= 2
  {
  }

  /** How one step of `CompileFrom` can end. */
  lemma CompileFromShape(tm: TokenMap, format: string, n: nat)
    requires 0 < n <= |tm.keys|
    ensures CompileFrom(tm, format, n).Ok? <==>
            CompileFrom(tm, format, n - 1).Ok? && |EntryAt(tm, n - 1).delimiters| >= 2
    ensures CompileFrom(tm, format, n - 1).Err? ==> CompileFrom(tm, format, n) == CompileFrom(tm, format, n - 1)
    ensures CompileFrom(tm, format, n - 1).Ok? && |EntryAt(tm, n - 1).delimiters| < 2 ==>
            CompileFrom(tm, format, n) == Err(DelimitersInvalid(tm.keys[n - 1]))
  {
  }

  // ---------------------------------------------------------------------
  // Formats written from a template
  // ---------------------------------------------------------------------

  /** A format seen as a sequence of literal text, token placeholders and
      the message placeholder. */
  datatype Part = Lit(text: string) | Slot(token: string) | Msg

  predicate HasDelimiters(tm: TokenMap, token: string) {
    token in tm.values && |tm.values[token].delimiters| >= 2
  }

  function Open(tm: TokenMap, token: string): string
    requires HasDelimiters(tm, token)
  {
    tm.values[token].delimiters[0]
  }

  function Close(tm: TokenMap, token: string): string
    requires HasDelimiters(tm, token)
  {
    tm.values[token].delimiters[1]
  }

  predicate SlotsKnown(tm: TokenMap, parts: seq<Part>) {
    forall i :: 0 <= i < |parts| && parts[i].Slot? ==> HasDelimiters(tm, parts[i].token)
  }

  /** One part as written in the format, with the placeholders of the tokens
      in `done` already turned into their groups. */
  function RenderPart(tm: TokenMap, p: Part, done: set<string>): string
    requires p.Slot? ==> HasDelimiters(tm, p.token)
  {
    match p
    case Lit(t) => t
    case Slot(k) =>
      if k in done then GroupPattern(k, Open(tm, k), Close(tm, k))
      else Placeholder(k, Open(tm, k), Close(tm, k))
    case Msg => MESSAGE_PLACEHOLDER
  }

  function Render(tm: TokenMap, parts: seq<Part>, done: set<string>): string
    requires SlotsKnown(tm, parts)
  {
    if parts == [] then []
    else RenderPart(tm, parts[0], done) + Render(tm, parts[1..], done)
  }

  /** The format text of a template. */
  function FormatText(tm: TokenMap, parts: seq<Part>): string
    requires SlotsKnown(tm, parts)
  {
    Render(tm, parts, {})
  }

  /** The pattern text one part stands for: literal text as is, a
      placeholder as its group, the message placeholder as nothing. */
  function PatternPart(tm: TokenMap, p: Part): string
    requires p.Slot? ==> HasDelimiters(tm, p.token)
  {
    match p
    case Lit(t) => t
    case Slot(k) => GroupPattern(k, Open(tm, k), Close(tm, k))
    case Msg => []
  }

  /** The pattern text a template stands for. */
  function PatternText(tm: TokenMap, parts: seq<Part>): string
    requires SlotsKnown(tm, parts)
  {
    if parts == [] then [] else PatternPart(tm, parts[0]) + PatternText(tm, parts[1..])
  }

  /** What keeps the placeholders of a format apart: no `%` outside them,
      token names without `)` so that `%(name)` ends where the name ends, and
      no token called `message`. */
  predicate Compilable(tm: TokenMap, parts: seq<Part>) {
    && SlotsKnown(tm, parts)
    && MESSAGE !in tm.values
    && (forall k :: k in tm.values ==> HasDelimiters(tm, k))
    && (forall k :: k in tm.values ==>
          Lacks(k, '%') && Lacks(k, ')') && Lacks(Open(tm, k), '%') && Lacks(Close(tm, k), '%'))
    && (forall i :: 0 <= i < |parts| && parts[i].Lit? ==> Lacks(parts[i].text, '%'))
  }

  // The `%` characters of the rendered parts.

  lemma TokenTypeLacksPercent(token: string)
    ensures Lacks(TokenType(token), '%')
  {
    if token in TOKEN_TYPING {
      assert TOKEN_TYPING[token] in {"s", "f", "d"};
    }
  }

  lemma EscapeLacks(d: string, c: char)
    requires Lacks(d, c) && c != '\\'
    ensures Lacks(Escape(d), c)
  {
  }

  lemma GroupPatternLacksPercent(k: string, o: string, c: string)
    requires Lacks(k, '%') && Lacks(o, '%') && Lacks(c, '%')
    ensures Lacks(GroupPattern(k, o, c), '%')
  {
    EscapeLacks(o, '%');
    EscapeLacks(c, '%');
    assert Lacks(GROUP_OPEN, '%') && Lacks(GROUP_CLOSE, '%');
    LacksConcat(GROUP_OPEN, k, '%');
    LacksConcat(GROUP_OPEN + k, GROUP_CLOSE, '%');
    LacksConcat(Escape(o), GroupText(k), '%');
    LacksConcat(Escape(o) + GroupText(k), Escape(c), '%');
  }

  /** The word `%(k)` with which the placeholder of `k` continues after its
      opening delimiter. */
  function Tag(k: string): string {
    "%(" + k + ")"
  }

  /** The only `%` of a placeholder is the one after its opening delimiter. */
  lemma PlaceholderPercent(k: string, o: string, c: string)
    requires Lacks(k, '%') && Lacks(o, '%') && Lacks(c, '%')
    ensures var ph := Placeholder(k, o, c);
            && |o| < |ph| && ph[|o|] == '%' && StartsWith(ph[|o|..], Tag(k))
            && forall j :: 0 <= j < |ph| && j != |o| ==> ph[j] != '%'
  {
    var t := TokenType(k);
    TokenTypeLacksPercent(k);
    var ph := Placeholder(k, o, c);
    assert ph == o + (Tag(k) + t + c);
    assert ph[|o|..] == Tag(k) + t + c;
    forall j | 0 <= j < |ph| && j != |o| ensures ph[j] != '%' {
      if j < |o| {
        assert ph[j] == o[j];
      } else if j < |o| + 2 + |k| {
        assert ph[j] == ("%(" + k)[j - |o|];
      } else if j == |o| + 2 + |k| {
        assert ph[j] == ')';
      } else if j < |o| + 3 + |k| + |t| {
        assert ph[j] == t[j - |o| - 3 - |k|];
      } else {
        assert ph[j] == c[j - |o| - 3 - |k| - |t|];
      }
    }
  }

  /** Where the tag of a name without `)` ends in a text it starts. */
  lemma TagEnd(u: string, a: string)
    requires Lacks(a, ')') && StartsWith(u, Tag(a))
    ensures 2 + |a| < |u| && u[2 + |a|] == ')'
    ensures forall i :: 2 <= i < 2 + |a| ==> u[i] != ')'
  {
    assert u[2 + |a|] == Tag(a)[2 + |a|];
    forall i | 2 <= i < 2 + |a| ensures u[i] != ')' {
      assert u[i] == Tag(a)[i] == a[i - 2];
    }
  }

  /** Two names without `)` whose tags start the same text are the same name. */
  lemma SameTag(u: string, a: string, b: string)
    requires Lacks(a, ')') && Lacks(b, ')')
    requires StartsWith(u, Tag(a)) && StartsWith(u, Tag(b))
    ensures a == b
  {
    TagEnd(u, a);
    TagEnd(u, b);
    assert |a| == |b|;
    forall i | 0 <= i < |a| ensures a[i] == b[i] {
      assert u[2 + i] == Tag(a)[2 + i] == a[i];
      assert u[2 + i] == Tag(b)[2 + i] == b[i];
    }
  }

  /** A word that starts a part at `j` starts the whole text at `j`. */
  lemma StartsInFirst(a: string, b: string, j: nat, w: string)
    requires j <= |a| && StartsWith(a[j..], w)
    ensures StartsWith((a + b)[j..], w)
  {
    assert (a + b)[j..] == a[j..] + b;
    assert (a + b)[j..][..|w|] == a[j..][..|w|];
  }

  /** A word that starts the second part at `j - |a|` starts the whole text at `j`. */
  lemma StartsInSecond(a: string, b: string, j: nat, w: string)
    requires |a| <= j <= |a| + |b| && StartsWith(b[j - |a|..], w)
    ensures StartsWith((a + b)[j..], w)
  {
    assert (a + b)[j..] == b[j - |a|..];
  }

  /** The `%` characters of one rendered part: none in literal text or in a
      finished group; in a placeholder still waiting only the one of its
      tag; in the message placeholder only its first. */
  lemma PartTag(tm: TokenMap, parts: seq<Part>, done: set<string>, j: nat) returns (k: string)
    requires Compilable(tm, parts) && parts != []
    requires j < |RenderPart(tm, parts[0], done)| && RenderPart(tm, parts[0], done)[j] == '%'
    ensures StartsWith(RenderPart(tm, parts[0], done)[j..], Tag(k)) && Lacks(k, ')')
    ensures || (parts[0] == Msg && k == MESSAGE)
            || (parts[0] == Slot(k) && k !in done && HasDelimiters(tm, k) && j == |Open(tm, k)|)
  {
    match parts[0]
    case Lit(t) =>
      assert false;
    case Slot(name) =>
      k := name;
      SlotTag(tm, name, done, j);
    case Msg =>
      k := MESSAGE;
      assert MESSAGE_PLACEHOLDER[0..][..|Tag(MESSAGE)|] == Tag(MESSAGE);
  }

  /** The only `%` a placeholder renders is the start of its own tag. */
  lemma SlotTag(tm: TokenMap, name: string, done: set<string>, j: nat)
    requires HasDelimiters(tm, name)
    requires Lacks(name, '%') && Lacks(Open(tm, name), '%') && Lacks(Close(tm, name), '%')
    requires j < |RenderPart(tm, Slot(name), done)| && RenderPart(tm, Slot(name), done)[j] == '%'
    ensures StartsWith(RenderPart(tm, Slot(name), done)[j..], Tag(name))
    ensures name !in done && j == |Open(tm, name)|
  {
    if name in done {
      GroupPatternLacksPercent(name, Open(tm, name), Close(tm, name));
    } else {
      PlaceholderPercent(name, Open(tm, name), Close(tm, name));
    }
  }

  lemma CompilableTail(tm: TokenMap, parts: seq<Part>)
    requires parts != [] && Compilable(tm, parts)
    ensures Compilable(tm, parts[1..]) && parts[0] in parts
  {
    forall i | 0 <= i < |parts[1..]| && parts[1..][i].Slot?
      ensures HasDelimiters(tm, parts[1..][i].token)
    {
      assert parts[1..][i] == parts[i + 1];
    }
    forall i | 0 <= i < |parts[1..]| && parts[1..][i].Lit?
      ensures Lacks(parts[1..][i].text, '%')
    {
      assert parts[1..][i] == parts[i + 1];
    }
  }

  lemma RenderCons(tm: TokenMap, parts: seq<Part>, done: set<string>)
    requires parts != [] && Compilable(tm, parts)
    ensures Compilable(tm, parts[1..])
    ensures Render(tm, parts, done) == RenderPart(tm, parts[0], done) + Render(tm, parts[1..], done)
  {
    CompilableTail(tm, parts);
  }

  /** Every `%` of a rendered format begins the tag of the message or of a
      token still waiting for its turn, and such a token's opening delimiter
      fits before it. */
  lemma {:induction false} PercentToken(tm: TokenMap, parts: seq<Part>, done: set<string>, j: nat)
    returns (k: string)
    requires Compilable(tm, parts)
    requires j < |Render(tm, parts, done)| && Render(tm, parts, done)[j] == '%'
    ensures StartsWith(Render(tm, parts, done)[j..], Tag(k)) && Lacks(k, ')')
    ensures k == MESSAGE || (HasDelimiters(tm, k) && |Open(tm, k)| <= j)
    decreases |parts|
  {
    var a := RenderPart(tm, parts[0], done);
    var b := Render(tm, parts[1..], done);
    RenderCons(tm, parts, done);
    if j < |a| {
      k := PartTag(tm, parts, done, j);
      StartsInFirst(a, b, j, Tag(k));
    } else {
      k := PercentToken(tm, parts[1..], done, j - |a|);
      StartsInSecond(a, b, j, Tag(k));
    }
  }

  /** The `%` of an occurrence of a placeholder, and the tag after it. */
  lemma OccurrenceTag(s: string, key: string, o: string, c: string, i: nat)
    requires Lacks(key, '%') && Lacks(o, '%') && Lacks(c, '%')
    requires OccursAt(s, Placeholder(key, o, c), i)
    ensures i + |o| < |s| && s[i + |o|] == '%' && StartsWith(s[i + |o|..], Tag(key))
  {
    var pat := Placeholder(key, o, c);
    PlaceholderPercent(key, o, c);
    assert s[i..i + |pat|] == pat;
    assert s[i + |o|..][..|Tag(key)|] == pat[|o|..][..|Tag(key)|];
  }

  /** Where a placeholder's text could begin inside one part without being
      that part itself, it does not occur. */
  lemma NoEarlyOccurrence(tm: TokenMap, parts: seq<Part>, done: set<string>, key: string, i: nat)
    requires Compilable(tm, parts) && parts != [] && key in tm.values && key !in done
    requires parts[0] != Slot(key)
    requires i < |RenderPart(tm, parts[0], done)|
    ensures !OccursAt(Render(tm, parts, done), Placeholder(key, Open(tm, key), Close(tm, key)), i)
  {
    var s := Render(tm, parts, done);
    if OccursAt(s, Placeholder(key, Open(tm, key), Close(tm, key)), i) {
      OccurrenceTag(s, key, Open(tm, key), Close(tm, key), i);
      TagNotNear(tm, parts, done, key, i);
    }
  }

  /** The `%` found `|Open(tm, key)|` past a position inside the first part
      does not start the tag of `key`. */
  lemma TagNotNear(tm: TokenMap, parts: seq<Part>, done: set<string>, key: string, i: nat)
    requires Compilable(tm, parts) && parts != [] && key in tm.values
    requires parts[0] != Slot(key)
    requires i < |RenderPart(tm, parts[0], done)| && i + |Open(tm, key)| < |Render(tm, parts, done)|
    requires Render(tm, parts, done)[i + |Open(tm, key)|] == '%'
    ensures !StartsWith(Render(tm, parts, done)[i + |Open(tm, key)|..], Tag(key))
  {
    if i + |Open(tm, key)| < |RenderPart(tm, parts[0], done)| {
      TagNotInFirst(tm, parts, done, key, i + |Open(tm, key)|);
    } else {
      TagNotInSecond(tm, parts, done, key, i);
    }
  }

  /** A `%` inside the first part that is not the slot of `key` does not
      start the tag of `key`. */
  lemma TagNotInFirst(tm: TokenMap, parts: seq<Part>, done: set<string>, key: string, j: nat)
    requires Compilable(tm, parts) && parts != [] && key in tm.values
    requires parts[0] != Slot(key)
    requires j < |RenderPart(tm, parts[0], done)| && j < |Render(tm, parts, done)|
    requires Render(tm, parts, done)[j] == '%'
    ensures !StartsWith(Render(tm, parts, done)[j..], Tag(key))
  {
    var s := Render(tm, parts, done);
    var a := RenderPart(tm, parts[0], done);
    RenderCons(tm, parts, done);
    assert a[j] == s[j];
    var k := PartTag(tm, parts, done, j);
    StartsInFirst(a, Render(tm, parts[1..], done), j, Tag(k));
    if StartsWith(s[j..], Tag(key)) {
      SameTag(s[j..], key, k);
    }
  }

  /** The tag of `key` cannot start in the later parts at `|Open(tm, key)|`
      past a position inside the first part. */
  lemma TagNotInSecond(tm: TokenMap, parts: seq<Part>, done: set<string>, key: string, i: nat)
    requires Compilable(tm, parts) && parts != [] && key in tm.values
    requires i < |RenderPart(tm, parts[0], done)| <= i + |Open(tm, key)| < |Render(tm, parts, done)|
    requires Render(tm, parts, done)[i + |Open(tm, key)|] == '%'
    ensures !StartsWith(Render(tm, parts, done)[i + |Open(tm, key)|..], Tag(key))
  {
    var j := i + |Open(tm, key)|;
    var k := SecondTag(tm, parts, done, j);
    assert k != key by {
      if k != MESSAGE {
        assert |Open(tm, k)| <= j - |RenderPart(tm, parts[0], done)| < |Open(tm, key)|;
      }
    }
    var u := Render(tm, parts, done)[j..];
    if StartsWith(u, Tag(key)) {
      SameTag(u, key, k);
    }
  }

  /** A `%` in the later parts starts the tag of a token those parts hold. */
  lemma SecondTag(tm: TokenMap, parts: seq<Part>, done: set<string>, j: nat) returns (k: string)
    requires Compilable(tm, parts) && parts != []
    requires |RenderPart(tm, parts[0], done)| <= j < |Render(tm, parts, done)|
    requires Render(tm, parts, done)[j] == '%'
    ensures StartsWith(Render(tm, parts, done)[j..], Tag(k)) && Lacks(k, ')')
    ensures k == MESSAGE || (HasDelimiters(tm, k) && |Open(tm, k)| <= j - |RenderPart(tm, parts[0], done)|)
  {
    var s := Render(tm, parts, done);
    var a := RenderPart(tm, parts[0], done);
    var b := Render(tm, parts[1..], done);
    RenderCons(tm, parts, done);
    assert b[j - |a|] == s[j];
    k := PercentToken(tm, parts[1..], done, j - |a|);
    StartsInSecond(a, b, j, Tag(k));
  }

  /** One pass of the compile loop: replacing the placeholder of a token
      that is still waiting turns exactly that token's placeholders into its
      group and leaves the rest of the format as it was. */
  lemma {:induction false} ReplaceStep(tm: TokenMap, parts: seq<Part>, done: set<string>, key: string)
    requires Compilable(tm, parts) && key in tm.values && key !in done
    ensures ReplaceAll(Render(tm, parts, done), Placeholder(key, Open(tm, key), Close(tm, key)),
                       GroupPattern(key, Open(tm, key), Close(tm, key)))
            == Render(tm, parts, done + {key})
    decreases |parts|
  {
    var pat := Placeholder(key, Open(tm, key), Close(tm, key));
    var rep := GroupPattern(key, Open(tm, key), Close(tm, key));
    if parts != [] {
      var a := RenderPart(tm, parts[0], done);
      var b := Render(tm, parts[1..], done);
      RenderCons(tm, parts, done);
      ReplaceStep(tm, parts[1..], done, key);
      if parts[0] == Slot(key) {
        assert a == pat;
        assert OccursAt(a + b, pat, 0);
        assert (a + b)[|pat|..] == b;
      } else {
        forall i | 0 <= i < |a| ensures !OccursAt(a + b, pat, i) {
          NoEarlyOccurrence(tm, parts, done, key, i);
        }
        ReplacePrefixFree(a, b, pat, rep);
        assert RenderPart(tm, parts[0], done + {key}) == a;
      }
    }
  }

  /** The tokens the loop has handled after `n` keys. */
  function Done(tm: TokenMap, n: nat): set<string>
    requires n <= |tm.keys|
  {
    set k | k in tm.keys[..n]
  }

  /** The compile loop, key after key, turns exactly the placeholders of the
      keys handled so far into groups. */
  lemma {:induction false} CompileFromTemplate(tm: TokenMap, parts: seq<Part>, n: nat)
    requires Compilable(tm, parts) && n <= |tm.keys|
    ensures CompileFrom(tm, FormatText(tm, parts), n) == Ok(Render(tm, parts, Done(tm, n)))
  {
    if n == 0 {
      assert Done(tm, 0) == {};
    } else {
      CompileFromTemplate(tm, parts, n - 1);
      CompileFromStep(tm, parts, n, CompileFrom(tm, FormatText(tm, parts), n - 1));
    }
  }

  /** The `n`-th key is new to the keys before it. */
  lemma DoneStep(tm: TokenMap, n: nat)
    requires 0 < n <= |tm.keys|
    ensures tm.keys[n - 1] in tm.values && tm.keys[n - 1] !in Done(tm, n - 1)
    ensures Done(tm, n) == Done(tm, n - 1) + {tm.keys[n - 1]}
  {
    var key := tm.keys[n - 1];
    assert key in tm.keys;
    assert tm.keys[..n] == tm.keys[..n - 1] + [key];
  }

  /** One more turn of the compile loop on a key that has its delimiters. */
  lemma CompileFromUnfold(tm: TokenMap, format: string, n: nat, text: string)
    requires 0 < n <= |tm.keys| && HasDelimiters(tm, tm.keys[n - 1])
    requires CompileFrom(tm, format, n - 1) == Ok(text)
    ensures CompileFrom(tm, format, n) ==
            Ok(ReplaceAll(text, Placeholder(tm.keys[n - 1], Open(tm, tm.keys[n - 1]), Close(tm, tm.keys[n - 1])),
                          GroupPattern(tm.keys[n - 1], Open(tm, tm.keys[n - 1]), Close(tm, tm.keys[n - 1]))))
  {
  }

  lemma CompileFromStep(tm: TokenMap, parts: seq<Part>, n: nat, prev: Result<string, DecodeError>)
    requires Compilable(tm, parts) && 0 < n <= |tm.keys|
    requires prev == CompileFrom(tm, FormatText(tm, parts), n - 1)
    requires prev == Ok(Render(tm, parts, Done(tm, n - 1)))
    ensures CompileFrom(tm, FormatText(tm, parts), n) == Ok(Render(tm, parts, Done(tm, n)))
  {
    var key := tm.keys[n - 1];
    DoneStep(tm, n);
    assert HasDelimiters(tm, key);
    CompileFromUnfold(tm, FormatText(tm, parts), n, Render(tm, parts, Done(tm, n - 1)));
    ReplaceStep(tm, parts, Done(tm, n - 1), key);
  }

  /** Deleting the message placeholder from a format whose placeholders are
      all groups leaves the pattern text. */
  lemma {:induction false} MessageStep(tm: TokenMap, parts: seq<Part>, done: set<string>)
    requires Compilable(tm, parts)
    requires forall i :: 0 <= i < |parts| && parts[i].Slot? ==> parts[i].token in done
    ensures ReplaceAll(Render(tm, parts, done), MESSAGE_PLACEHOLDER, "") == PatternText(tm, parts)
    decreases |parts|
  {
    if parts != [] {
      var a := RenderPart(tm, parts[0], done);
      var b := Render(tm, parts[1..], done);
      RenderCons(tm, parts, done);
      MessageStep(tm, parts[1..], done);
      if parts[0].Msg? {
        assert OccursAt(a + b, MESSAGE_PLACEHOLDER, 0);
        assert (a + b)[|MESSAGE_PLACEHOLDER|..] == b;
      } else {
        forall i | 0 <= i < |a| ensures !OccursAt(a + b, MESSAGE_PLACEHOLDER, i) {
          if OccursAt(a + b, MESSAGE_PLACEHOLDER, i) {
            assert a[i] == (a + b)[i] == MESSAGE_PLACEHOLDER[0] == '%';
            var k := PartTag(tm, parts, done, i);
          }
        }
        ReplacePrefixFree(a, b, MESSAGE_PLACEHOLDER, "");
      }
    }
  }

  /** Compiling a format written from a template gives the template's
      pattern text. */
  lemma CompileTemplate(tm: TokenMap, parts: seq<Part>)
    requires Compilable(tm, parts)
    ensures CompileFormat(tm, FormatText(tm, parts)) == Ok(PatternText(tm, parts))
  {
    CompileFromTemplate(tm, parts, |tm.keys|);
    var done := Done(tm, |tm.keys|);
    assert tm.keys[..|tm.keys|] == tm.keys;
    forall i | 0 <= i < |parts| && parts[i].Slot? ensures parts[i].token in done {
      assert parts[i].token in tm.values;
    }
    MessageStep(tm, parts, done);
  }

  // ---------------------------------------------------------------------
  // Reading the compiled pattern
  // ---------------------------------------------------------------------

  /** An opening delimiter the pattern reads as its own characters: one that
      is escaped, or plain text, possibly ending in a `{` (the group after it
      keeps that brace literal). */
  predicate OpenReadable(o: string) {
    || o in DELIMITERS_TO_ESCAPE
    || Plain(o)
    || (o != [] && Plain(o[..|o| - 1]) && o[|o| - 1] == '{')
  }

  /** A closing delimiter the pattern reads as its own characters. */
  predicate CloseReadable(c: string) {
    c in DELIMITERS_TO_ESCAPE || Plain(c)
  }

  /** The template lies in the fragment the matcher models: literal text
      and delimiters stand for themselves and token names are identifiers. */
  predicate Readable(tm: TokenMap, parts: seq<Part>) {
    && SlotsKnown(tm, parts)
    && forall i :: 0 <= i < |parts| ==>
         match parts[i]
         case Lit(t) => Plain(t)
         case Slot(k) => IsIdentifier(k) && OpenReadable(Open(tm, k)) && CloseReadable(Close(tm, k))
         case Msg => true
  }

  /** The pattern one part stands for. */
  function PiecesOf(tm: TokenMap, p: Part): Pattern
    requires p.Slot? ==> HasDelimiters(tm, p.token)
  {
    match p
    case Lit(t) => Chars(t)
    case Slot(k) => Chars(Open(tm, k)) + [Group(k)] + Chars(Close(tm, k))
    case Msg => []
  }

  /** The pattern a template stands for. */
  function PatternOf(tm: TokenMap, parts: seq<Part>): Pattern
    requires SlotsKnown(tm, parts)
  {
    if parts == [] then [] else PiecesOf(tm, parts[0]) + PatternOf(tm, parts[1..])
  }

  /** The tokens of the template's placeholders, in order. */
  function SlotTokens(parts: seq<Part>): seq<string> {
    if parts == [] then []
    else (if parts[0].Slot? then [parts[0].token] else []) + SlotTokens(parts[1..])
  }

  lemma ReadableTail(tm: TokenMap, parts: seq<Part>)
    requires parts != [] && Readable(tm, parts)
    ensures Readable(tm, parts[1..])
  {
    assert forall i :: 0 <= i < |parts[1..]| ==> parts[1..][i] == parts[i + 1];
  }

  /** A delimiter reads as its own characters. */
  lemma ParseDelimiter(d: string)
    requires OpenReadable(d)
    ensures Parse(Escape(d)) == Some(Chars(d))
  {
    if d in DELIMITERS_TO_ESCAPE {
      ParseEscapedChar(d);
    } else if Plain(d) {
      ParsePlain(d);
    } else {
      ParseBraceEnd(d);
    }
  }

  lemma ParseEscapedChar(d: string)
    requires d in DELIMITERS_TO_ESCAPE
    ensures Parse(Escape(d)) == Some(Chars(d))
  {
    var t := Escape(d);
    assert |d| == 1 && t == ['\\', d[0]];
    assert Token(t) == Some((Char(d[0]), 2));
    assert t[2..] == [];
    ParseAfterToken(t, Char(d[0]), 2, []);
    assert [Char(d[0])] + [] == [Char(d[0])] == Chars(d);
  }

  lemma ParseBrace()
    ensures Parse("{") == Some([Char('{')])
  {
    assert Token("{") == Some((Char('{'), 1));
    assert "{"[1..] == [];
    ParseAfterToken("{", Char('{'), 1, []);
    assert [Char('{')] + [] == [Char('{')];
  }

  lemma ParseBraceEnd(d: string)
    requires d != [] && Plain(d[..|d| - 1]) && d[|d| - 1] == '{'
    ensures Parse(d) == Some(Chars(d))
  {
    var front := d[..|d| - 1];
    assert d == front + "{";
    ParseAppendBrace(front);
  }

  /** Plain text followed by `{` reads as its own characters. */
  lemma ParseAppendBrace(front: string)
    requires Plain(front)
    ensures Parse(front + "{") == Some(Chars(front + "{"))
  {
    ParsePlain(front);
    ParseBrace();
    ParseConcat(front, "{");
    CharsConcat(front, "{");
    assert Chars("{") == [Char('{')];
  }

  lemma CharsConcat(a: string, b: string)
    ensures Chars(a + b) == Chars(a) + Chars(b)
  {
  }

  /** A placeholder's group reads as its delimiters around one group. */
  lemma ParseSlot(k: string, o: string, c: string)
    requires IsIdentifier(k) && OpenReadable(o) && CloseReadable(c)
    ensures Parse(GroupPattern(k, o, c)) == Some(Chars(o) + [Group(k)] + Chars(c))
  {
    ParseDelimiter(o);
    ParseDelimiter(c);
    ParseGroup(k);
    var g := GroupText(k);
    assert g[0] == '(';
    ParseConcat(Escape(o), g);
    var x := Escape(o) + g;
    assert x[|x| - 1] == GROUP_CLOSE[3] == ')';
    ParseConcat(x, Escape(c));
  }

  /** No part's pattern text ends in a `{`. */
  lemma PartEnd(tm: TokenMap, p: Part)
    requires p.Slot? ==> HasDelimiters(tm, p.token)
    requires Readable(tm, [p])
    ensures var t := PatternPart(tm, p); t == [] || t[|t| - 1] != '{'
  {
    assert [p][0] == p;
    match p
    case Lit(t) =>
    case Msg =>
    case Slot(k) =>
      var c := Close(tm, k);
      var t := PatternPart(tm, p);
      if Escape(c) == [] {
        assert t == Escape(Open(tm, k)) + GroupText(k);
        assert t[|t| - 1] == GROUP_CLOSE[3];
      } else {
        assert t[|t| - 1] == Escape(c)[|Escape(c)| - 1];
      }
  }

  /** The compiled pattern text reads as the template's pattern. */
  lemma {:induction false} ParseTemplate(tm: TokenMap, parts: seq<Part>)
    requires Readable(tm, parts)
    ensures Parse(PatternText(tm, parts)) == Some(PatternOf(tm, parts))
    decreases |parts|
  {
    if parts != [] {
      var p := parts[0];
      ReadableTail(tm, parts);
      ParseTemplate(tm, parts[1..]);
      assert Readable(tm, [p]) by {
        assert [p][0] == parts[0];
      }
      assert Parse(PatternPart(tm, p)) == Some(PiecesOf(tm, p)) by {
        assert [p][0] == parts[0];
        match p
        case Lit(t) => ParsePlain(t);
        case Slot(k) => ParseSlot(k, Open(tm, k), Close(tm, k));
        case Msg =>
      }
      PartEnd(tm, p);
      ParseConcat(PatternPart(tm, p), PatternText(tm, parts[1..]));
    }
  }

  /** The groups of one part's pattern: its token when it is a placeholder. */
  lemma PiecesGroups(tm: TokenMap, p: Part)
    requires p.Slot? ==> HasDelimiters(tm, p.token)
    ensures GroupNames(PiecesOf(tm, p)) == if p.Slot? then [p.token] else []
  {
    match p
    case Lit(t) => GroupNamesChars(t);
    case Msg =>
    case Slot(k) =>
      var o, c := Open(tm, k), Close(tm, k);
      GroupNamesConcat(Chars(o), [Group(k)]);
      GroupNamesConcat(Chars(o) + [Group(k)], Chars(c));
      GroupNamesChars(o);
      GroupNamesChars(c);
      assert GroupNames([Group(k)]) == [k];
  }

  /** The groups of the template's pattern are its placeholders' tokens. */
  lemma {:induction false} PatternGroups(tm: TokenMap, parts: seq<Part>)
    requires SlotsKnown(tm, parts)
    ensures GroupNames(PatternOf(tm, parts)) == SlotTokens(parts)
    decreases |parts|
  {
    if parts != [] {
      SlotsKnownTail(tm, parts);
      PatternGroups(tm, parts[1..]);
      assert PatternOf(tm, parts) == PiecesOf(tm, parts[0]) + PatternOf(tm, parts[1..]);
      GroupNamesConcat(PiecesOf(tm, parts[0]), PatternOf(tm, parts[1..]));
      PiecesGroups(tm, parts[0]);
    }
  }


  /** `re.compile` accepts the compiled text of a template whose tokens
      appear once each, and gives the template's pattern. */
  lemma CompileReadable(tm: TokenMap, parts: seq<Part>)
    requires Readable(tm, parts) && Distinct(SlotTokens(parts))
    ensures Compile(PatternText(tm, parts)) == Some(PatternOf(tm, parts))
  {
    ParseTemplate(tm, parts);
    PatternGroups(tm, parts);
  }

  // ---------------------------------------------------------------------
  // Lines written with a template
  // ---------------------------------------------------------------------

  /** The line the logging module writes with a template: each placeholder
      becomes its delimiters around the next value, the message placeholder
      becomes `message`. */
  function LogLine(tm: TokenMap, parts: seq<Part>, vals: seq<string>, message: string): string
    requires SlotsKnown(tm, parts) && |vals| == |SlotTokens(parts)|
  {
    if parts == [] then []
    else match parts[0]
      case Lit(t) => t + LogLine(tm, parts[1..], vals, message)
      case Slot(k) => Open(tm, k) + vals[0] + Close(tm, k) + LogLine(tm, parts[1..], vals[1..], message)
      case Msg => message + LogLine(tm, parts[1..], vals, message)
  }

  /** Each token paired with its value, as `groupdict().items()` lists them. */
  function Labelled(names: seq<string>, vals: seq<string>): (caps: seq<Capture>)
    requires |names| == |vals|
    ensures |caps| == |names|
    ensures forall i :: 0 <= i < |caps| ==> caps[i] == Capture(names[i], vals[i])
  {
    seq(|names|, i requires 0 <= i < |names| => Capture(names[i], vals[i]))
  }

  predicate NoMsg(parts: seq<Part>) {
    forall i :: 0 <= i < |parts| ==> !parts[i].Msg?
  }

  /** A placeholder's pattern in front of a pattern: its delimiters around
      the first value, and the first capture. */
  lemma SlotPrefix(o: string, k: string, c: string, q: Pattern, vals: seq<string>)
    requires |vals| == 1 + GroupCount(q)
    ensures GroupCount(Chars(o) + [Group(k)] + Chars(c) + q) == |vals|
    ensures Fill(Chars(o) + [Group(k)] + Chars(c) + q, vals) == o + vals[0] + c + Fill(q, vals[1..])
    ensures Captures(Chars(o) + [Group(k)] + Chars(c) + q, vals) == [Capture(k, vals[0])] + Captures(q, vals[1..])
  {
    var rest := vals[1..];
    var q1 := Chars(c) + q;
    CharsPrefix(c, q, rest);
    var q2 := [Group(k)] + q1;
    GroupPrefix(k, q1, vals);
    CharsPrefix(o, q2, vals);
    assert Chars(o) + [Group(k)] + Chars(c) + q == Chars(o) + q2;
    var f := Fill(q, rest);
    assert Fill(Chars(o) + q2, vals) == o + (vals[0] + (c + f));
    Regroup4(o, vals[0], c, f);
  }

  lemma SlotsKnownTail(tm: TokenMap, parts: seq<Part>)
    requires parts != [] && SlotsKnown(tm, parts)
    ensures SlotsKnown(tm, parts[1..])
  {
    assert forall i :: 0 <= i < |parts[1..]| ==> parts[1..][i] == parts[i + 1];
  }

  /** The template's pattern stands for the line written with the same
      values, and lists each token with its value. */
  lemma {:induction false} LineFill(tm: TokenMap, parts: seq<Part>, vals: seq<string>)
    requires SlotsKnown(tm, parts) && NoMsg(parts) && |vals| == |SlotTokens(parts)|
    ensures GroupCount(PatternOf(tm, parts)) == |vals|
    ensures Fill(PatternOf(tm, parts), vals) == LogLine(tm, parts, vals, [])
    ensures Captures(PatternOf(tm, parts), vals) == Labelled(SlotTokens(parts), vals)
    decreases |parts|
  {
    PatternGroups(tm, parts);
    if parts != [] {
      SlotsKnownTail(tm, parts);
      assert NoMsg(parts[1..]) by {
        assert forall i :: 0 <= i < |parts[1..]| ==> parts[1..][i] == parts[i + 1];
      }
      assert !parts[0].Msg?;
      if parts[0].Lit? {
        LineFill(tm, parts[1..], vals);
        LitStep(tm, parts, vals);
      } else {
        LineFill(tm, parts[1..], vals[1..]);
        SlotStep(tm, parts, vals);
      }
    }
  }

  lemma LitStep(tm: TokenMap, parts: seq<Part>, vals: seq<string>)
    requires parts != [] && parts[0].Lit? && SlotsKnown(tm, parts) && SlotsKnown(tm, parts[1..])
    requires |vals| == |SlotTokens(parts)| == GroupCount(PatternOf(tm, parts[1..]))
    requires Fill(PatternOf(tm, parts[1..]), vals) == LogLine(tm, parts[1..], vals, [])
    requires Captures(PatternOf(tm, parts[1..]), vals) == Labelled(SlotTokens(parts[1..]), vals)
    ensures GroupCount(PatternOf(tm, parts)) == |vals|
    ensures Fill(PatternOf(tm, parts), vals) == LogLine(tm, parts, vals, [])
    ensures Captures(PatternOf(tm, parts), vals) == Labelled(SlotTokens(parts), vals)
  {
    var t := parts[0].text;
    assert PatternOf(tm, parts) == Chars(t) + PatternOf(tm, parts[1..]);
    assert SlotTokens(parts) == [] + SlotTokens(parts[1..]) == SlotTokens(parts[1..]);
    assert LogLine(tm, parts, vals, []) == t + LogLine(tm, parts[1..], vals, []);
    CharsPrefix(t, PatternOf(tm, parts[1..]), vals);
  }

  lemma SlotStep(tm: TokenMap, parts: seq<Part>, vals: seq<string>)
    requires parts != [] && parts[0].Slot? && SlotsKnown(tm, parts) && SlotsKnown(tm, parts[1..])
    requires |vals| == |SlotTokens(parts)| && |vals[1..]| == GroupCount(PatternOf(tm, parts[1..]))
    requires Fill(PatternOf(tm, parts[1..]), vals[1..]) == LogLine(tm, parts[1..], vals[1..], [])
    requires Captures(PatternOf(tm, parts[1..]), vals[1..]) == Labelled(SlotTokens(parts[1..]), vals[1..])
    ensures GroupCount(PatternOf(tm, parts)) == |vals|
    ensures Fill(PatternOf(tm, parts), vals) == LogLine(tm, parts, vals, [])
    ensures Captures(PatternOf(tm, parts), vals) == Labelled(SlotTokens(parts), vals)
  {
    var k := parts[0].token;
    var o, c, q := Open(tm, k), Close(tm, k), PatternOf(tm, parts[1..]);
    assert PatternOf(tm, parts) == Chars(o) + [Group(k)] + Chars(c) + q;
    assert LogLine(tm, parts, vals, []) == o + vals[0] + c + LogLine(tm, parts[1..], vals[1..], []);
    SlotPrefix(o, k, c, q, vals);
    assert SlotTokens(parts) == [k] + SlotTokens(parts[1..]);
    LabelledCons(k, SlotTokens(parts[1..]), vals);
  }

  lemma LabelledCons(k: string, names: seq<string>, vals: seq<string>)
    requires |vals| == 1 + |names|
    ensures Labelled([k] + names, vals) == [Capture(k, vals[0])] + Labelled(names, vals[1..])
  {
  }

  /** A template that ends with the message placeholder and has no other. */
  predicate MessageLast(parts: seq<Part>) {
    parts != [] && parts[|parts| - 1] == Msg && NoMsg(parts[..|parts| - 1])
  }

  /** Appending the message placeholder adds nothing to the pattern or its
      text, and the message to the end of the line. */
  lemma {:induction false} AppendMessage(tm: TokenMap, body: seq<Part>, vals: seq<string>, message: string)
    requires SlotsKnown(tm, body) && NoMsg(body) && |vals| == |SlotTokens(body)|
    ensures SlotsKnown(tm, body + [Msg]) && SlotTokens(body + [Msg]) == SlotTokens(body)
    ensures PatternText(tm, body + [Msg]) == PatternText(tm, body)
    ensures PatternOf(tm, body + [Msg]) == PatternOf(tm, body)
    ensures LogLine(tm, body + [Msg], vals, message) == LogLine(tm, body, vals, []) + message
    decreases |body|
  {
    var parts := body + [Msg];
    if body == [] {
      assert parts == [Msg];
      assert parts[1..] == [];
    } else {
      assert parts[0] == body[0] && parts[1..] == body[1..] + [Msg];
      SlotsKnownTail(tm, body);
      assert NoMsg(body[1..]) by {
        assert forall i :: 0 <= i < |body[1..]| ==> body[1..][i] == body[i + 1];
      }
      assert !body[0].Msg?;
      var vs := if body[0].Slot? then vals[1..] else vals;
      var head := match body[0]
        case Slot(k) => Open(tm, k) + vals[0] + Close(tm, k)
        case Lit(t) => t;
      AppendMessage(tm, body[1..], vs, message);
      assert LogLine(tm, parts, vals, message) == head + LogLine(tm, parts[1..], vs, message);
      assert LogLine(tm, body, vals, []) == head + LogLine(tm, body[1..], vs, []);
      Regroup3(head, LogLine(tm, body[1..], vs, []), message);
    }
  }

  /** Reading back a line written with a template that ends with the
      message placeholder: the format compiles to the template's pattern
      text, `re.compile` reads that text as the template's pattern, and
      `re.match` on the line lists each token with the value it was written
      with, provided no value holds a line feed and each group's greedy
      `.*` stops at its own value. */
  lemma TemplateRoundTrip(tm: TokenMap, body: seq<Part>, vals: seq<string>, message: string)
    requires Compilable(tm, body + [Msg]) && Readable(tm, body) && NoMsg(body)
    requires Distinct(SlotTokens(body))
    requires |vals| == |SlotTokens(body)| == GroupCount(PatternOf(tm, body))
    requires forall i :: 0 <= i < |vals| ==> NoNewline(vals[i])
    requires Unambiguous(PatternOf(tm, body), vals, message)
    ensures SlotTokens(body + [Msg]) == SlotTokens(body)
    ensures CompileFormat(tm, FormatText(tm, body + [Msg])) == Ok(PatternText(tm, body))
    ensures Compile(PatternText(tm, body)) == Some(PatternOf(tm, body))
    ensures Match(PatternOf(tm, body), LogLine(tm, body + [Msg], vals, message)) ==
            Some(Labelled(SlotTokens(body), vals))
  {
    AppendMessage(tm, body, vals, message);
    CompileTemplate(tm, body + [Msg]);
    CompileReadable(tm, body);
    LineFill(tm, body, vals);
    MatchRoundTrip(PatternOf(tm, body), vals, message);
  }

  /** Literal text at the head of a template changes nothing about the
      greedy choices, and leads the pattern's literal head. */
  lemma UnambiguousLit(tm: TokenMap, parts: seq<Part>, vals: seq<string>, tail: string)
    requires parts != [] && parts[0].Lit? && SlotsKnown(tm, parts) && SlotsKnown(tm, parts[1..])
    requires |vals| == GroupCount(PatternOf(tm, parts[1..]))
    ensures GroupCount(PatternOf(tm, parts)) == |vals|
    ensures Unambiguous(PatternOf(tm, parts), vals, tail) == Unambiguous(PatternOf(tm, parts[1..]), vals, tail)
    ensures LeadingChars(PatternOf(tm, parts)) == parts[0].text + LeadingChars(PatternOf(tm, parts[1..]))
  {
    var q := PatternOf(tm, parts[1..]);
    assert PatternOf(tm, parts) == Chars(parts[0].text) + q;
    CharsPrefix(parts[0].text, q, vals);
    CharsUnambiguous(parts[0].text, q, vals, tail);
  }

  /** A placeholder at the head of a template: its group's value is the
      greedy choice when no longer capture is followed by the closing
      delimiter and the literal text after it; the pattern's literal head is
      the opening delimiter. */
  lemma UnambiguousSlot(tm: TokenMap, parts: seq<Part>, vals: seq<string>, tail: string)
    requires parts != [] && parts[0].Slot? && SlotsKnown(tm, parts) && SlotsKnown(tm, parts[1..])
    requires |vals| == 1 + GroupCount(PatternOf(tm, parts[1..]))
    ensures GroupCount(PatternOf(tm, parts)) == |vals|
    ensures var k := parts[0].token;
            var q := PatternOf(tm, parts[1..]);
            var s := vals[0] + Close(tm, k) + Fill(q, vals[1..]) + tail;
            Unambiguous(PatternOf(tm, parts), vals, tail) <==>
              && (forall j :: |vals[0]| < j <= Run(s) ==> !StartsWith(s[j..], Close(tm, k) + LeadingChars(q)))
              && Unambiguous(q, vals[1..], tail)
    ensures LeadingChars(PatternOf(tm, parts)) == Open(tm, parts[0].token)
  {
    var k := parts[0].token;
    var o, c, q := Open(tm, k), Close(tm, k), PatternOf(tm, parts[1..]);
    var q1 := Chars(c) + q;
    var q2 := [Group(k)] + q1;
    assert PatternOf(tm, parts) == Chars(o) + q2;
    CharsPrefix(c, q, vals[1..]);
    CharsUnambiguous(c, q, vals[1..], tail);
    GroupPrefix(k, q1, vals);
    GroupUnambiguous(k, q1, vals, tail);
    CharsPrefix(o, q2, vals);
    CharsUnambiguous(o, q2, vals, tail);
    var f := Fill(q, vals[1..]);
    assert Fill(q1, vals[1..]) == c + f;
    Regroup3(vals[0], c, f);
    assert o + [] == o;
  }
}
