/**
  The logging format the decoder is written for,
  `%(asctime)s: <o>%(name)s<c> <o>%(levelname)s<c> %(message)s`, read back
  end to end: a line written with it gives back the time, the logger name,
  the severity and the message. With `[ ]` this is the constructor's
  default format and the default token map; with other one-character
  delimiters, such as `{ }` or `( )`, the overrides give them to the
  `name` and `levelname` tokens.
 */
module DefaultFormat {
  import opened Wrappers
  import opened PyValues
  import opened PyText
  import opened TokenMaps
  import opened Regex
  import opened Template
  import opened Entry

  /** The format as a template, without its closing message placeholder,
      built up from its end. */
  const LEVEL_TAIL: seq<Part> := [Lit(" ")]
  const LEVEL_PART: seq<Part> := [Slot("levelname")] + LEVEL_TAIL
  const NAME_TAIL: seq<Part> := [Lit(" ")] + LEVEL_PART
  const NAME_PART: seq<Part> := [Slot("name")] + NAME_TAIL
  const TIME_TAIL: seq<Part> := [Lit(" ")] + NAME_PART
  const BODY: seq<Part> := [Slot("asctime")] + TIME_TAIL

  /** The format text for delimiters `o` and `c`. */
  function FormatFor(o: string, c: string): string {
    "%(asctime)s:" + " " + o + "%(name)s" + c + " " + o + "%(levelname)s" + c + " %(message)s"
  }

  /** The line the format writes. */
  function LineFor(o: string, c: string, time: string, name: string, level: string, message: string): string {
    time + ":" + " " + o + name + c + " " + o + level + c + " " + message
  }

  /** A token map with the default `asctime` entry, `o` and `c` around
      `name` and `levelname`, and the format's placeholders kept apart. */
  predicate Shaped(tm: TokenMap, o: string, c: string) {
    Entries(tm, o, c) && Compilable(tm, BODY + [Msg])
  }

  /** The three entries the format's placeholders use. */
  predicate Entries(tm: TokenMap, o: string, c: string) {
    && "asctime" in tm.values && tm.values["asctime"] == TokenEntry("time", ["", ":"])
    && "name" in tm.values && tm.values["name"] == TokenEntry("logger_name", [o, c])
    && "levelname" in tm.values && tm.values["levelname"] == TokenEntry("severity", [o, c])
  }

  /** One-character delimiters the pattern reads as themselves, neither of
      them `%`, `:` or a space, and different from each other. */
  predicate SimpleDelimiters(o: string, c: string) {
    && |o| == 1 && |c| == 1 && OpenReadable(o) && CloseReadable(c)
    && o[0] != c[0]
    && o[0] != '%' && o[0] != ':' && o[0] != ' '
    && c[0] != '%' && c[0] != ':' && c[0] != ' '
  }

  /** Values that keep the line readable: no line feed in a captured value,
      no `:` after the time, no opening delimiter inside the values, no
      closing delimiter in the message, a logger name and a severity that
      start differently, and a message without surrounding whitespace. */
  predicate Separable(o: string, c: string, time: string, name: string, level: string, message: string)
    requires |o| == 1 && |c| == 1
  {
    && NoNewline(time) && NoNewline(name) && NoNewline(level)
    && Lacks(name, ':') && Lacks(level, ':') && Lacks(message, ':')
    && Lacks(name, o[0]) && Lacks(level, o[0]) && Lacks(message, o[0])
    && Lacks(message, c[0])
    && name != [] && level != [] && name[0] != level[0]
    && NoEdgeSpace(message)
  }

  lemma LacksFrom(s: string, k: nat, ch: char)
    requires k <= |s| && Lacks(s[k..], ch)
    ensures forall m :: k <= m < |s| ==> s[m] != ch
  {
    forall m | k <= m < |s| ensures s[m] != ch {
      assert s[k..][m - k] == s[m];
    }
  }

  /** Literal text in front of a template. */
  lemma LitCons(tm: TokenMap, t: string, rest: seq<Part>, vals: seq<string>)
    requires SlotsKnown(tm, rest) && NoMsg(rest) && |vals| == |SlotTokens(rest)|
    ensures SlotsKnown(tm, [Lit(t)] + rest) && NoMsg([Lit(t)] + rest)
    ensures ([Lit(t)] + rest)[0] == Lit(t) && ([Lit(t)] + rest)[1..] == rest
    ensures SlotTokens([Lit(t)] + rest) == SlotTokens(rest)
    ensures LogLine(tm, [Lit(t)] + rest, vals, []) == t + LogLine(tm, rest, vals, [])
  {
    var parts := [Lit(t)] + rest;
    assert parts[1..] == rest;
    assert forall i :: 1 <= i < |parts| ==> parts[i] == rest[i - 1];
  }

  /** A placeholder in front of a template. */
  lemma SlotCons(tm: TokenMap, k: string, rest: seq<Part>, vals: seq<string>)
    requires HasDelimiters(tm, k)
    requires SlotsKnown(tm, rest) && NoMsg(rest) && |vals| == 1 + |SlotTokens(rest)|
    ensures SlotsKnown(tm, [Slot(k)] + rest) && NoMsg([Slot(k)] + rest)
    ensures ([Slot(k)] + rest)[0] == Slot(k) && ([Slot(k)] + rest)[1..] == rest
    ensures SlotTokens([Slot(k)] + rest) == [k] + SlotTokens(rest)
    ensures LogLine(tm, [Slot(k)] + rest, vals, []) ==
            Open(tm, k) + vals[0] + Close(tm, k) + LogLine(tm, rest, vals[1..], [])
  {
    var parts := [Slot(k)] + rest;
    assert parts[1..] == rest;
    assert forall i :: 1 <= i < |parts| ==> parts[i] == rest[i - 1];
  }

  /** What the template writes from the severity on. */
  lemma LevelLine(tm: TokenMap, o: string, c: string, level: string)
    requires Entries(tm, o, c)
    ensures SlotsKnown(tm, LEVEL_PART) && NoMsg(LEVEL_PART) && SlotTokens(LEVEL_PART) == ["levelname"]
    ensures SlotsKnown(tm, NAME_TAIL) && NoMsg(NAME_TAIL) && SlotTokens(NAME_TAIL) == ["levelname"]
    ensures LogLine(tm, NAME_TAIL, [level], []) == " " + o + level + c + " "
  {
    assert LogLine(tm, [], [], []) == [];
    LitCons(tm, " ", [], []);
    assert LEVEL_TAIL == [Lit(" ")] + [];
    SlotCons(tm, "levelname", LEVEL_TAIL, [level]);
    assert [level][1..] == [];
    LitCons(tm, " ", LEVEL_PART, [level]);
  }

  /** What the template writes from the logger name on. */
  lemma NameLine(tm: TokenMap, o: string, c: string, name: string, level: string)
    requires Entries(tm, o, c)
    ensures SlotsKnown(tm, TIME_TAIL) && NoMsg(TIME_TAIL) && SlotTokens(TIME_TAIL) == ["name", "levelname"]
    ensures LogLine(tm, TIME_TAIL, [name, level], []) == " " + o + name + c + " " + o + level + c + " "
  {
    LevelLine(tm, o, c, level);
    SlotCons(tm, "name", NAME_TAIL, [name, level]);
    assert [name, level][1..] == [level];
    LitCons(tm, " ", NAME_PART, [name, level]);
  }

  /** What the template writes. */
  lemma BodyLines(tm: TokenMap, o: string, c: string, time: string, name: string, level: string)
    requires Entries(tm, o, c)
    ensures SlotsKnown(tm, BODY) && NoMsg(BODY) && SlotTokens(BODY) == ["asctime", "name", "levelname"]
    ensures SlotsKnown(tm, TIME_TAIL) && NoMsg(TIME_TAIL) && SlotTokens(TIME_TAIL) == ["name", "levelname"]
    ensures LogLine(tm, TIME_TAIL, [name, level], []) == " " + o + name + c + " " + o + level + c + " "
    ensures LogLine(tm, BODY, [time, name, level], []) == time + ":" + " " + o + name + c + " " + o + level + c + " "
  {
    NameLine(tm, o, c, name, level);
    SlotCons(tm, "asctime", TIME_TAIL, [time, name, level]);
    assert [time, name, level][1..] == [name, level];
  }

  /** The format's closing space stands for itself. */
  lemma LevelTail(tm: TokenMap, message: string)
    ensures SlotsKnown(tm, LEVEL_TAIL) && GroupCount(PatternOf(tm, LEVEL_TAIL)) == 0
    ensures Fill(PatternOf(tm, LEVEL_TAIL), []) == " "
    ensures LeadingChars(PatternOf(tm, LEVEL_TAIL)) == " "
    ensures Unambiguous(PatternOf(tm, LEVEL_TAIL), [], message)
  {
    assert LEVEL_TAIL == [Lit(" ")] + [];
    LitCons(tm, " ", [], []);
    assert LogLine(tm, [], [], []) == [];
    LineFill(tm, LEVEL_TAIL, []);
    UnambiguousLit(tm, LEVEL_TAIL, [], message);
    assert LogLine(tm, LEVEL_TAIL, [], []) == " " + [];
  }

  /** The severity's group stops at its value: the closing delimiter and
      the space after it appear nowhere later in the line. */
  lemma LevelUnambiguous(tm: TokenMap, o: string, c: string, level: string, message: string)
    requires Entries(tm, o, c) && SimpleDelimiters(o, c) && Lacks(message, c[0])
    ensures SlotsKnown(tm, NAME_TAIL) && GroupCount(PatternOf(tm, NAME_TAIL)) == 1
    ensures Unambiguous(PatternOf(tm, NAME_TAIL), [level], message)
    ensures LeadingChars(PatternOf(tm, NAME_TAIL)) == " " + o
  {
    LevelLine(tm, o, c, level);
    LevelTail(tm, message);
    assert LEVEL_PART[0] == Slot("levelname") && LEVEL_PART[1..] == LEVEL_TAIL;
    assert NAME_TAIL[0] == Lit(" ") && NAME_TAIL[1..] == LEVEL_PART;
    assert [level][1..] == [];
    UnambiguousSlot(tm, LEVEL_PART, [level], message);
    assert c + LeadingChars(PatternOf(tm, LEVEL_TAIL)) == c + " ";
    var s := level + c + Fill(PatternOf(tm, LEVEL_TAIL), []) + message;
    assert s == level + c + (" " + message);
    assert s[|level| + 1..] == " " + message;
    LacksFrom(s, |level| + 1, c[0]);
    NoLaterStart(s, c + " ", |level|, 0);
    UnambiguousLit(tm, NAME_TAIL, [level], message);
  }

  /** The logger name's group stops at its value: the opening delimiter
      after it is followed by the severity, which holds no opening delimiter. */
  lemma NameUnambiguous(tm: TokenMap, o: string, c: string, name: string, level: string, message: string)
    requires Entries(tm, o, c) && SimpleDelimiters(o, c)
    requires Lacks(level, o[0]) && Lacks(message, o[0]) && Lacks(message, c[0])
    ensures SlotsKnown(tm, TIME_TAIL) && GroupCount(PatternOf(tm, TIME_TAIL)) == 2
    ensures Unambiguous(PatternOf(tm, TIME_TAIL), [name, level], message)
    ensures LeadingChars(PatternOf(tm, TIME_TAIL)) == " " + o
  {
    LevelLine(tm, o, c, level);
    LevelUnambiguous(tm, o, c, level, message);
    LineFill(tm, NAME_TAIL, [level]);
    assert NAME_PART[0] == Slot("name") && NAME_PART[1..] == NAME_TAIL;
    assert TIME_TAIL[0] == Lit(" ") && TIME_TAIL[1..] == NAME_PART;
    assert [name, level][1..] == [level];
    SlotCons(tm, "name", NAME_TAIL, [name, level]);
    UnambiguousSlot(tm, NAME_PART, [name, level], message);
    var s := name + c + Fill(PatternOf(tm, NAME_TAIL), [level]) + message;
    NameRest(o, c, name, level, message, s);
    NoLaterStart(s, c + (" " + o), |name|, 2);
    UnambiguousLit(tm, TIME_TAIL, [name, level], message);
  }

  lemma NameRest(o: string, c: string, name: string, level: string, message: string, s: string)
    requires SimpleDelimiters(o, c)
    requires Lacks(level, o[0]) && Lacks(message, o[0])
    requires s == name + c + (" " + o + level + c + " ") + message
    ensures forall m :: |name| + 2 < m < |s| ==> s[m] != (c + (" " + o))[2]
  {
    assert s == name + c + " " + o + (level + c + " " + message);
    assert s[|name| + 3..] == level + c + " " + message;
    LacksConcat(level, c, o[0]);
    LacksConcat(level + c, " ", o[0]);
    LacksConcat(level + c + " ", message, o[0]);
    LacksFrom(s, |name| + 3, o[0]);
  }

  /** Every group of the format stops at its own value, the time's at the
      only `:` after it. */
  lemma BodyUnambiguous(tm: TokenMap, o: string, c: string, time: string, name: string, level: string, message: string)
    requires Entries(tm, o, c) && SimpleDelimiters(o, c) && Separable(o, c, time, name, level, message)
    ensures SlotsKnown(tm, BODY) && GroupCount(PatternOf(tm, BODY)) == 3
    ensures Unambiguous(PatternOf(tm, BODY), [time, name, level], message)
  {
    BodyLines(tm, o, c, time, name, level);
    NameUnambiguous(tm, o, c, name, level, message);
    LineFill(tm, TIME_TAIL, [name, level]);
    LineFill(tm, BODY, [time, name, level]);
    UnambiguousSlot(tm, BODY, [time, name, level], message);
    assert [time, name, level][1..] == [name, level];
    var f := Fill(PatternOf(tm, TIME_TAIL), [name, level]);
    assert f == " " + o + name + c + " " + o + level + c + " ";
    var s := time + ":" + f + message;
    Regroup3(time + ":", f, message);
    assert s[|time| + 1..] == f + message;
    RestLacksColon(o, c, name, level, message);
    LacksFrom(s, |time| + 1, ':');
    NoLaterStart(s, ":" + (" " + o), |time|, 0);
  }

  lemma RestLacksColon(o: string, c: string, name: string, level: string, message: string)
    requires SimpleDelimiters(o, c) && Lacks(name, ':') && Lacks(level, ':') && Lacks(message, ':')
    ensures Lacks(" " + o + name + c + " " + o + level + c + " " + message, ':')
  {
    LacksConcat(" ", o, ':');
    LacksConcat(" " + o, name, ':');
    LacksConcat(" " + o + name, c, ':');
    LacksConcat(" " + o + name + c, " ", ':');
    LacksConcat(" " + o + name + c + " ", o, ':');
    LacksConcat(" " + o + name + c + " " + o, level, ':');
    LacksConcat(" " + o + name + c + " " + o + level, c, ':');
    LacksConcat(" " + o + name + c + " " + o + level + c, " ", ':');
    LacksConcat(" " + o + name + c + " " + o + level + c + " ", message, ':');
  }

  // ---------------------------------------------------------------------
  // The format text
  // ---------------------------------------------------------------------

  lemma FormatLit(tm: TokenMap, t: string, rest: seq<Part>)
    requires SlotsKnown(tm, rest)
    ensures SlotsKnown(tm, [Lit(t)] + rest)
    ensures FormatText(tm, [Lit(t)] + rest) == t + FormatText(tm, rest)
  {
    var parts := [Lit(t)] + rest;
    assert parts[1..] == rest;
    assert forall i :: 1 <= i < |parts| ==> parts[i] == rest[i - 1];
  }

  lemma FormatSlot(tm: TokenMap, k: string, rest: seq<Part>)
    requires HasDelimiters(tm, k) && SlotsKnown(tm, rest)
    ensures SlotsKnown(tm, [Slot(k)] + rest)
    ensures FormatText(tm, [Slot(k)] + rest) == Placeholder(k, Open(tm, k), Close(tm, k)) + FormatText(tm, rest)
  {
    var parts := [Slot(k)] + rest;
    assert parts[1..] == rest;
    assert forall i :: 1 <= i < |parts| ==> parts[i] == rest[i - 1];
  }

  /** The three tokens are written with `%(...)s`. */
  lemma PlaceholderTypes()
    ensures TokenType("asctime") == "s" && TokenType("name") == "s" && TokenType("levelname") == "s"
  {
  }

  /** A placeholder of a string-typed token. */
  lemma PlaceholderText(k: string, o: string, c: string)
    requires k in TOKEN_TYPING && TOKEN_TYPING[k] == "s"
    ensures Placeholder(k, o, c) == o + "%(" + k + ")s" + c
  {
    assert TokenType(k) == "s";
    assert "%(" + k + ")" + "s" == "%(" + k + ")s";
  }

  /** The format text of the last literal and the message. */
  lemma MessageFormat(tm: TokenMap)
    ensures SlotsKnown(tm, LEVEL_TAIL + [Msg])
    ensures FormatText(tm, LEVEL_TAIL + [Msg]) == " %(message)s"
  {
    assert [Msg][1..] == [];
    assert Render(tm, [], {}) == [];
    assert Render(tm, [Msg], {}) == RenderPart(tm, Msg, {}) + Render(tm, [], {});
    assert FormatText(tm, [Msg]) == MESSAGE_PLACEHOLDER;
    FormatLit(tm, " ", [Msg]);
    assert LEVEL_TAIL + [Msg] == [Lit(" ")] + [Msg];
  }

  /** The severity placeholder. */
  lemma LevelPlaceholder(o: string, c: string)
    ensures Placeholder("levelname", o, c) == o + "%(levelname)s" + c
  {
    PlaceholderText("levelname", o, c);
    assert "%(" + "levelname" + ")s" == "%(levelname)s";
  }

  /** The format text from the severity placeholder on. */
  lemma LevelPartFormat(tm: TokenMap, o: string, c: string)
    requires Entries(tm, o, c)
    ensures SlotsKnown(tm, LEVEL_PART + [Msg])
    ensures FormatText(tm, LEVEL_PART + [Msg]) == o + "%(levelname)s" + c + " %(message)s"
  {
    MessageFormat(tm);
    assert LEVEL_PART + [Msg] == [Slot("levelname")] + (LEVEL_TAIL + [Msg]);
    FormatSlot(tm, "levelname", LEVEL_TAIL + [Msg]);
    LevelPlaceholder(o, c);
  }

  /** The format text from the severity on. */
  lemma LevelFormat(tm: TokenMap, o: string, c: string)
    requires Entries(tm, o, c)
    ensures SlotsKnown(tm, NAME_TAIL + [Msg])
    ensures FormatText(tm, NAME_TAIL + [Msg]) == " " + o + "%(levelname)s" + c + " %(message)s"
  {
    LevelPartFormat(tm, o, c);
    assert NAME_TAIL + [Msg] == [Lit(" ")] + (LEVEL_PART + [Msg]);
    FormatLit(tm, " ", LEVEL_PART + [Msg]);
  }

  /** The format text from the logger name on. */
  lemma NameFormat(tm: TokenMap, o: string, c: string)
    requires Entries(tm, o, c)
    ensures SlotsKnown(tm, TIME_TAIL + [Msg])
    ensures FormatText(tm, TIME_TAIL + [Msg]) == " " + o + "%(name)s" + c + FormatText(tm, NAME_TAIL + [Msg])
  {
    LevelFormat(tm, o, c);
    assert NAME_PART + [Msg] == [Slot("name")] + (NAME_TAIL + [Msg]);
    FormatSlot(tm, "name", NAME_TAIL + [Msg]);
    assert TIME_TAIL + [Msg] == [Lit(" ")] + (NAME_PART + [Msg]);
    FormatLit(tm, " ", NAME_PART + [Msg]);
    NamePlaceholder(o, c);
    Regroup5(" ", o, "%(name)s", c, FormatText(tm, NAME_TAIL + [Msg]));
  }

  /** The logger name placeholder. */
  lemma NamePlaceholder(o: string, c: string)
    ensures Placeholder("name", o, c) == o + "%(name)s" + c
  {
    PlaceholderText("name", o, c);
    assert "%(" + "name" + ")s" == "%(name)s";
  }

  /** The time placeholder, closed by the colon. */
  lemma TimePlaceholder()
    ensures Placeholder("asctime", "", ":") == "%(asctime)s:"
  {
    PlaceholderText("asctime", "", ":");
    assert "" + "%(" + "asctime" + ")s" + ":" == "%(asctime)s:";
  }

  /** The template with the message placeholder writes the format. */
  lemma BodyFormat(tm: TokenMap, o: string, c: string)
    requires Entries(tm, o, c)
    ensures SlotsKnown(tm, BODY + [Msg])
    ensures FormatText(tm, BODY + [Msg]) == FormatFor(o, c)
  {
    LevelFormat(tm, o, c);
    NameFormat(tm, o, c);
    assert BODY + [Msg] == [Slot("asctime")] + (TIME_TAIL + [Msg]);
    FormatSlot(tm, "asctime", TIME_TAIL + [Msg]);
    TimePlaceholder();
    var x := "%(asctime)s:";
    Regroup6(x, " ", o, "%(name)s", c, FormatText(tm, NAME_TAIL + [Msg]));
    Regroup6(x + " " + o + "%(name)s" + c, " ", o, "%(levelname)s", c, " %(message)s");
  }

  /** The literal text of the template with its message placeholder is
      spaces. */
  lemma BodyLits()
    ensures forall i :: 0 <= i < |BODY + [Msg]| && (BODY + [Msg])[i].Lit? ==> (BODY + [Msg])[i].text == " "
  {
    assert BODY == [Slot("asctime"), Lit(" "), Slot("name"), Lit(" "), Slot("levelname"), Lit(" ")];
  }

  /** The template lies in the fragment the matcher reads. */
  lemma BodyReadable(tm: TokenMap, o: string, c: string)
    requires Entries(tm, o, c) && SimpleDelimiters(o, c)
    ensures Readable(tm, BODY)
  {
    assert BODY == [Slot("asctime"), Lit(" "), Slot("name"), Lit(" "), Slot("levelname"), Lit(" ")];
    TokenNamesIdentifiers();
    TimeDelimitersReadable();
  }

  lemma TokenNamesIdentifiers()
    ensures IsIdentifier("asctime") && IsIdentifier("name") && IsIdentifier("levelname")
  {
  }

  lemma TimeDelimitersReadable()
    ensures OpenReadable("") && CloseReadable(":") && Plain(" ")
  {
  }

  // ---------------------------------------------------------------------
  // Cutting the captures out of the line
  // ---------------------------------------------------------------------

  /** The time and its colon occur once, at the start of the line, when
      no colon follows them. */
  lemma CutTime(time: string, rest: string)
    requires Lacks(rest, ':')
    ensures ReplaceAll(time + ":" + rest, "" + time + ":", "") == rest
  {
    var pat := "" + time + ":";
    var s := [] + pat + rest;
    assert s == time + ":" + rest;
    forall m | |time| < m < |s| ensures s[m] != ':' {
      assert s[m] == rest[m - |time| - 1];
    }
    ReplaceMarked([], rest, pat, "", |time|);
    assert [] + "" + rest == rest;
  }

  /** A bracketed value after a space occurs once when the opening
      delimiter occurs again only right after the next space, and what
      follows it there does not start like the value. */
  lemma CutName(o: string, c: string, name: string, more: string)
    requires |o| == 1 && o[0] != ' ' && name != []
    requires Lacks(name + c, o[0]) && Lacks(more, o[0])
    requires more != [] ==> more[0] != name[0]
    ensures ReplaceAll(" " + (o + name + c) + (" " + o + more), o + name + c, "") == " " + (" " + o + more)
  {
    var pat := o + name + c;
    var b := " " + o + more;
    assert pat[1..] == name + c;
    assert pat[1] == name[0];
    forall m | 2 <= m < |b| ensures b[m] != pat[0] {
      assert b[m] == more[m - 2];
    }
    assert more != [] ==> b[2] == more[0];
    ReplaceLed(" ", b, pat, "");
    assert " " + "" + b == " " + b;
  }

  /** A bracketed value after spaces occurs once when the opening
      delimiter does not occur after it. */
  lemma CutLevel(o: string, c: string, level: string, tail: string)
    requires |o| == 1 && o[0] != ' ' && level != []
    requires Lacks(level + c, o[0]) && Lacks(tail, o[0])
    ensures ReplaceAll(" " + " " + (o + level + c) + tail, o + level + c, "") == " " + " " + tail
  {
    var pat := o + level + c;
    assert pat[1..] == level + c;
    assert pat[0] == o[0];
    ReplaceLed(" " + " ", tail, pat, "");
    assert " " + " " + "" + tail == " " + " " + tail;
  }

  /** The three captures, in the order of the groups. */
  function LayoutCaptures(time: string, name: string, level: string): seq<Capture> {
    [Capture("asctime", time), Capture("name", name), Capture("levelname", level)]
  }

  /** The first pass of the loop: the time is set and cut out with its
      colon. */
  lemma TimeStep(tm: TokenMap, f: Fields, time: string, rest: string, others: seq<Capture>)
    requires "asctime" in tm.values && tm.values["asctime"] == TokenEntry("time", ["", ":"])
    requires Lacks(rest, ':')
    ensures ApplyCaptures(tm, f, time + ":" + rest, [Capture("asctime", time)] + others) ==
            ApplyCaptures(tm, f.(time := time), rest, others)
  {
    var caps := [Capture("asctime", time)] + others;
    assert caps[0] == Capture("asctime", time) && caps[1..] == others;
    ApplyCapturesStep(tm, f, time + ":" + rest, caps);
    CutTime(time, rest);
    assert SetField(f, "time", time) == f.(time := time);
  }

  /** The second pass: the logger name is set and cut out with its
      delimiters. */
  lemma NameStep(tm: TokenMap, f: Fields, o: string, c: string, name: string, more: string, others: seq<Capture>)
    requires "name" in tm.values && tm.values["name"] == TokenEntry("logger_name", [o, c])
    requires |o| == 1 && o[0] != ' ' && name != []
    requires Lacks(name + c, o[0]) && Lacks(more, o[0])
    requires more != [] ==> more[0] != name[0]
    ensures ApplyCaptures(tm, f, " " + (o + name + c) + (" " + o + more), [Capture("name", name)] + others) ==
            ApplyCaptures(tm, f.(loggerName := name), " " + (" " + o + more), others)
  {
    var caps := [Capture("name", name)] + others;
    assert caps[0] == Capture("name", name) && caps[1..] == others;
    ApplyCapturesStep(tm, f, " " + (o + name + c) + (" " + o + more), caps);
    CutName(o, c, name, more);
    assert SetField(f, "logger_name", name) == f.(loggerName := name);
  }

  /** The third pass: the severity is set and cut out with its
      delimiters. */
  lemma LevelStep(tm: TokenMap, f: Fields, o: string, c: string, level: string, tail: string)
    requires "levelname" in tm.values && tm.values["levelname"] == TokenEntry("severity", [o, c])
    requires |o| == 1 && o[0] != ' ' && level != []
    requires Lacks(level + c, o[0]) && Lacks(tail, o[0])
    ensures ApplyCaptures(tm, f, " " + " " + (o + level + c) + tail, [Capture("levelname", level)]) ==
            Ok((f.(severity := level), " " + " " + tail))
  {
    var caps := [Capture("levelname", level)];
    assert caps[1..] == [];
    ApplyCapturesStep(tm, f, " " + " " + (o + level + c) + tail, caps);
    CutLevel(o, c, level, tail);
    assert SetField(f, "severity", level) == f.(severity := level);
  }

  /** The line regrouped as the three passes see it. */
  lemma LayoutShape(o: string, c: string, time: string, name: string, level: string, message: string)
    ensures var more := level + c + " " + message;
            && LineFor(o, c, time, name, level, message) == time + ":" + (" " + (o + name + c) + (" " + o + more))
            && " " + (o + name + c) + (" " + o + more) == " " + o + name + c + " " + o + level + c + " " + message
            && more == (level + c) + (" " + message)
            && " " + (" " + o + more) == " " + " " + (o + level + c) + (" " + message)
            && " " + " " + (" " + message) == " " + " " + " " + message
  {
  }

  /** Which characters the pieces of the line leave out. */
  lemma LayoutLacks(o: string, c: string, name: string, level: string, message: string)
    requires SimpleDelimiters(o, c) && Separable(o, c, "", name, level, message)
    ensures Lacks(" " + o + name + c + " " + o + level + c + " " + message, ':')
    ensures Lacks(name + c, o[0]) && Lacks(level + c, o[0]) && Lacks(" " + message, o[0])
    ensures Lacks(level + c + " " + message, o[0])
  {
    RestLacksColon(o, c, name, level, message);
    LacksConcat(name, c, o[0]);
    LacksConcat(level, c, o[0]);
    LacksConcat(" ", message, o[0]);
    LacksConcat(level + c, " " + message, o[0]);
    assert level + c + " " + message == (level + c) + (" " + message);
  }

  /** The loop over the groups sets the time, the logger name and the
      severity, and leaves the message with three spaces in front. */
  lemma ApplyLayout(tm: TokenMap, f: Fields, o: string, c: string,
                    time: string, name: string, level: string, message: string)
    requires Entries(tm, o, c) && SimpleDelimiters(o, c) && Separable(o, c, time, name, level, message)
    ensures ApplyCaptures(tm, f, LineFor(o, c, time, name, level, message), LayoutCaptures(time, name, level)) ==
            Ok((f.(time := time, loggerName := name, severity := level), " " + " " + " " + message))
  {
    var more := level + c + " " + message;
    var tail := " " + message;
    LayoutShape(o, c, time, name, level, message);
    LayoutLacks(o, c, name, level, message);
    assert LayoutCaptures(time, name, level) ==
           [Capture("asctime", time)] + ([Capture("name", name)] + [Capture("levelname", level)]);
    TimeStep(tm, f, time, " " + (o + name + c) + (" " + o + more), [Capture("name", name)] + [Capture("levelname", level)]);
    NameStep(tm, f.(time := time), o, c, name, more, [Capture("levelname", level)]);
    LevelStep(tm, f.(time := time, loggerName := name), o, c, level, tail);
  }

  // ---------------------------------------------------------------------
  // The round trip
  // ---------------------------------------------------------------------

  /** The format's template meets what the general round trip asks of a
      template, with the three values and the message. */
  lemma BodyFacts(tm: TokenMap, o: string, c: string,
                  time: string, name: string, level: string, message: string)
    requires Entries(tm, o, c) && SimpleDelimiters(o, c) && Separable(o, c, time, name, level, message)
    ensures Readable(tm, BODY) && NoMsg(BODY) && SlotsKnown(tm, BODY)
    ensures SlotTokens(BODY) == ["asctime", "name", "levelname"] && Distinct(SlotTokens(BODY))
    ensures GroupCount(PatternOf(tm, BODY)) == 3
    ensures forall i :: 0 <= i < |[time, name, level]| ==> NoNewline([time, name, level][i])
    ensures Unambiguous(PatternOf(tm, BODY), [time, name, level], message)
    ensures LogLine(tm, BODY, [time, name, level], []) + message == LineFor(o, c, time, name, level, message)
    ensures Labelled(SlotTokens(BODY), [time, name, level]) == LayoutCaptures(time, name, level)
  {
    BodyLines(tm, o, c, time, name, level);
    BodyUnambiguous(tm, o, c, time, name, level, message);
    BodyReadable(tm, o, c);
    var vals := [time, name, level];
    assert forall i :: 0 <= i < |vals| ==> NoNewline(vals[i]);
  }

  /** The format compiles to the template's pattern, `re.compile` reads it
      with its three groups apart, and the pattern matches a line written
      with the format, capturing the time, the logger name and the
      severity in that order. */
  lemma FormatMatches(tm: TokenMap, o: string, c: string,
                      time: string, name: string, level: string, message: string)
    requires Shaped(tm, o, c) && SimpleDelimiters(o, c) && Separable(o, c, time, name, level, message)
    ensures SlotsKnown(tm, BODY)
    ensures CompileFormat(tm, FormatFor(o, c)) == Ok(PatternText(tm, BODY))
    ensures Parse(PatternText(tm, BODY)) == Some(PatternOf(tm, BODY))
    ensures Distinct(GroupNames(PatternOf(tm, BODY)))
    ensures Match(PatternOf(tm, BODY), LineFor(o, c, time, name, level, message)) ==
            Some(LayoutCaptures(time, name, level))
  {
    var vals := [time, name, level];
    BodyFormat(tm, o, c);
    BodyFacts(tm, o, c, time, name, level, message);
    TemplateRoundTrip(tm, BODY, vals, message);
    AppendMessage(tm, BODY, vals, message);
  }

  /** The three spaces the passes leave in front of the message go. */
  lemma StripSpaces(message: string)
    requires NoEdgeSpace(message)
    ensures Strip(" " + " " + " " + message) == message
  {
    StripPadded(" " + " " + " ", message, []);
    assert " " + " " + " " + message + [] == " " + " " + " " + message;
  }

  /** Decoding a line written with the format gives back the time, the
      logger name, the severity and the message, and leaves every other
      property as it was. */
  lemma FormatRoundTrip(tm: TokenMap, f: Fields, o: string, c: string,
                        time: string, name: string, level: string, message: string)
    requires Shaped(tm, o, c) && SimpleDelimiters(o, c) && Separable(o, c, time, name, level, message)
    ensures DecodeModelled(tm, PyStr(FormatFor(o, c)))
    ensures Decode(tm, f, LineFor(o, c, time, name, level, message), PyStr(FormatFor(o, c))) ==
            Ok(f.(time := time, loggerName := name, severity := level, message := message))
  {
    FormatMatches(tm, o, c, time, name, level, message);
    assert FormatFor(o, c) != [];
    DecodeMatch(tm, f, LineFor(o, c, time, name, level, message), FormatFor(o, c),
                PatternOf(tm, BODY), LayoutCaptures(time, name, level));
    ApplyLayout(tm, f, o, c, time, name, level, message);
    StripSpaces(message);
  }
}
