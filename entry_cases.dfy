/**
  The three log lines the entry tests decode: the default format with no
  token map, and the same format with the logger name and the severity
  between curly braces or parentheses, each override giving those two
  tokens the matching delimiters. Each is proved to construct an entry
  holding the time, the logger name, the severity and the message the line
  was written with.
 */
module EntryCases {
  import opened Wrappers
  import opened PyValues
  import opened PyText
  import opened TokenMaps
  import opened Regex
  import opened Template
  import opened Entry
  import opened DefaultFormat

  const TEST_TIME: string := "2025-01-01 10:00:00,000"
  const LOGGER_NAME: string := "AppLogging"
  const LOG_SEVERITY: string := "ERROR"
  const LOG_STRING: string := "The default log string"

  // ---------------------------------------------------------------------
  // The token maps
  // ---------------------------------------------------------------------

  /** The default entries with `o` and `c` around the logger name and the severity. */
  function LayoutEntries(o: string, c: string): map<string, TokenEntry> {
    DEFAULT_TOKEN_ENTRIES["name" := TokenEntry("logger_name", [o, c])]["levelname" := TokenEntry("severity", [o, c])]
  }

  /** The default token map, in its order, with those two entries changed. */
  function LayoutTokens(o: string, c: string): TokenMap {
    var d := DefaultTokens();
    assert "name" in d.values && "levelname" in d.values;
    DictRep(DEFAULT_TOKEN_KEYS, LayoutEntries(o, c))
  }

  /** The override entry `{"delimiters": [o, c]}`. */
  function DelimiterOverride(o: string, c: string): RawEntry {
    RawDict(map[DELIMITERS := PyList([o, c])])
  }

  /** The token map `{"name": {"delimiters": [o, c]}, "levelname": {"delimiters": [o, c]}}`. */
  function LayoutOverrides(o: string, c: string): Overrides {
    OverridesDict(DictRep(["name", "levelname"],
                          map["name" := DelimiterOverride(o, c), "levelname" := DelimiterOverride(o, c)]))
  }

  /** The empty token map `{}`. */
  const NO_OVERRIDES: Overrides := OverridesDict(EmptyDict())

  /** No default token name holds `%` or `)`. */
  lemma DefaultKeysClean()
    ensures forall i :: 0 <= i < |DEFAULT_TOKEN_KEYS| ==>
              Lacks(DEFAULT_TOKEN_KEYS[i], '%') && Lacks(DEFAULT_TOKEN_KEYS[i], ')')
  {
    DefaultKeysCleanFrom(0, 5);
    DefaultKeysCleanFrom(5, 9);
    DefaultKeysCleanFrom(9, 13);
    DefaultKeysCleanFrom(13, 17);
  }

  lemma DefaultKeysCleanFrom(lo: nat, hi: nat)
    requires (lo, hi) in [(0, 5), (5, 9), (9, 13), (13, 17)]
    ensures forall i :: lo <= i < hi ==>
              Lacks(DEFAULT_TOKEN_KEYS[i], '%') && Lacks(DEFAULT_TOKEN_KEYS[i], ')')
  {
  }

  /** Entries whose names and delimiters the compilation can use: no
      `%` or `)` in a name, two delimiters, no `%` in them. */
  predicate CleanEntries(m: map<string, TokenEntry>) {
    forall k :: k in m ==>
      && Lacks(k, '%') && Lacks(k, ')')
      && |m[k].delimiters| >= 2
      && Lacks(m[k].delimiters[0], '%') && Lacks(m[k].delimiters[1], '%')
  }

  /** The default entries can all be used. */
  lemma DefaultEntriesClean()
    ensures CleanEntries(DEFAULT_TOKEN_ENTRIES)
  {
    var d := DefaultTokens();
    DefaultKeysClean();
    DefaultDelimitersClean();
    forall k | k in DEFAULT_TOKEN_ENTRIES ensures Lacks(k, '%') && Lacks(k, ')') {
      assert k in d.values;
      var i :| 0 <= i < |DEFAULT_TOKEN_KEYS| && DEFAULT_TOKEN_KEYS[i] == k;
    }
  }

  /** Replacing an entry by a usable one keeps the entries usable. */
  lemma UpdateClean(m: map<string, TokenEntry>, k: string, e: TokenEntry)
    requires CleanEntries(m) && Lacks(k, '%') && Lacks(k, ')')
    requires |e.delimiters| >= 2 && Lacks(e.delimiters[0], '%') && Lacks(e.delimiters[1], '%')
    ensures CleanEntries(m[k := e])
  {
  }

  /** A template whose literal text holds no `%`, over usable entries that
      know its tokens and none called `message`, can be compiled. */
  lemma CleanCompilable(tm: TokenMap, parts: seq<Part>)
    requires CleanEntries(tm.values) && MESSAGE !in tm.values && SlotsKnown(tm, parts)
    requires forall i :: 0 <= i < |parts| && parts[i].Lit? ==> Lacks(parts[i].text, '%')
    ensures Compilable(tm, parts)
  {
  }

  /** Every default entry has two delimiters without `%`. */
  lemma DefaultDelimitersClean()
    ensures forall k :: k in DEFAULT_TOKEN_ENTRIES ==>
              && |DEFAULT_TOKEN_ENTRIES[k].delimiters| == 2
              && Lacks(DEFAULT_TOKEN_ENTRIES[k].delimiters[0], '%')
              && Lacks(DEFAULT_TOKEN_ENTRIES[k].delimiters[1], '%')
  {
  }

  /** No default token is called `message`. */
  lemma MessageNotDefault()
    ensures MESSAGE !in DEFAULT_TOKEN_ENTRIES
  {
  }

  /** The format's three tokens have in that map the entries the format
      needs. */
  lemma LayoutEntriesMatch(o: string, c: string)
    ensures Entries(LayoutTokens(o, c), o, c)
  {
    assert "asctime" in DEFAULT_TOKEN_ENTRIES && DEFAULT_TOKEN_ENTRIES["asctime"] == TokenEntry("time", ["", ":"]);
  }

  /** Every entry of that map is usable, and none is called `message`. */
  lemma LayoutEntriesClean(o: string, c: string)
    requires SimpleDelimiters(o, c)
    ensures CleanEntries(LayoutTokens(o, c).values) && MESSAGE !in LayoutTokens(o, c).values
  {
    DefaultEntriesClean();
    UpdateClean(DEFAULT_TOKEN_ENTRIES, "name", TokenEntry("logger_name", [o, c]));
    UpdateClean(DEFAULT_TOKEN_ENTRIES["name" := TokenEntry("logger_name", [o, c])], "levelname", TokenEntry("severity", [o, c]));
    MessageNotDefault();
  }

  /** A map with the format's entries, all of them usable and none called
      `message`, fits the format. */
  lemma ShapedFrom(tm: TokenMap, o: string, c: string)
    requires Entries(tm, o, c) && CleanEntries(tm.values) && MESSAGE !in tm.values
    ensures Shaped(tm, o, c)
  {
    BodyFormat(tm, o, c);
    BodyLits();
    CleanCompilable(tm, BODY + [Msg]);
  }

  /** The token map with `o` and `c` around the logger name and the
      severity fits the format. */
  lemma LayoutShaped(o: string, c: string)
    requires SimpleDelimiters(o, c)
    ensures Shaped(LayoutTokens(o, c), o, c)
  {
    LayoutEntriesMatch(o, c);
    LayoutEntriesClean(o, c);
    ShapedFrom(LayoutTokens(o, c), o, c);
  }

  // ---------------------------------------------------------------------
  // Merging the test token maps
  // ---------------------------------------------------------------------

  /** The empty token map leaves the default map as it is. */
  lemma NoOverridesMerge()
    ensures TokenMapFor(NO_OVERRIDES) == Ok(DefaultTokens())
  {
  }

  /** With `[` and `]` the changed map is the default map. */
  lemma DefaultLayout()
    ensures LayoutTokens("[", "]") == DefaultTokens()
  {
    assert LayoutEntries("[", "]") == DEFAULT_TOKEN_ENTRIES;
  }

  /** The override `{"delimiters": [o, c]}` of the logger name keeps its
      default `mapto`. */
  lemma NameOverrideMerges(o: string, c: string)
    ensures MergeEntry("name", DelimiterOverride(o, c)) == Ok(TokenEntry("logger_name", [o, c]))
  {
    MergeEntryResolution("name", map[DELIMITERS := PyList([o, c])]);
  }

  /** The same override of the severity keeps its default `mapto`. */
  lemma LevelOverrideMerges(o: string, c: string)
    ensures MergeEntry("levelname", DelimiterOverride(o, c)) == Ok(TokenEntry("severity", [o, c]))
  {
    MergeEntryResolution("levelname", map[DELIMITERS := PyList([o, c])]);
  }

  /** Merging the override of the two tokens' delimiters into the default
      map gives the changed map, in the default order. */
  lemma LayoutMerge(o: string, c: string)
    ensures TokenMapFor(LayoutOverrides(o, c)) == Ok(LayoutTokens(o, c))
  {
    var tm := DefaultTokens();
    var d := LayoutOverrides(o, c).entries;
    var e1 := TokenEntry("logger_name", [o, c]);
    var e2 := TokenEntry("severity", [o, c]);
    assert d.keys[0] == "name" && d.keys[1] == "levelname";
    assert d.values["name"] == DelimiterOverride(o, c) && d.values["levelname"] == DelimiterOverride(o, c);
    NameOverrideMerges(o, c);
    LevelOverrideMerges(o, c);
    var t1 := Put(tm, "name", e1);
    MergePrefixNext(tm, d, 0, MergeEntry, tm);
    MergePrefixNext(tm, d, 1, MergeEntry, t1);
    assert Put(t1, "levelname", e2) == LayoutTokens(o, c);
  }

  // ---------------------------------------------------------------------
  // The three test lines
  // ---------------------------------------------------------------------

  /** The properties the tests expect after decoding. */
  const EXPECTED: Fields :=
    BLANK_FIELDS.(time := TEST_TIME, loggerName := LOGGER_NAME, severity := LOG_SEVERITY, message := LOG_STRING)

  /** Brackets, braces or parentheses. */
  predicate TestDelimiters(o: string, c: string) {
    |o| == 1 && |c| == 1 && o[0] in "[{(" && c[0] in "]})"
  }

  /** The test values keep apart under any of those delimiters. */
  lemma TestValuesSeparable(o: string, c: string)
    requires TestDelimiters(o, c)
    ensures Separable(o, c, TEST_TIME, LOGGER_NAME, LOG_SEVERITY, LOG_STRING)
  {
  }

  /** A test line with delimiters `o` and `c`, given overrides that merge into
      the layout's token map, constructs the expected entry. */
  lemma LayoutCase(o: string, c: string, overrides: Overrides)
    requires SimpleDelimiters(o, c) && TestDelimiters(o, c)
    requires TokenMapFor(overrides) == Ok(LayoutTokens(o, c))
    ensures ConstructModelled(PyStr(FormatFor(o, c)), overrides)
    ensures Construct(LineFor(o, c, TEST_TIME, LOGGER_NAME, LOG_SEVERITY, LOG_STRING),
                      PyStr(FormatFor(o, c)), overrides) ==
            Ok((LayoutTokens(o, c), EXPECTED))
  {
    LayoutShaped(o, c);
    TestValuesSeparable(o, c);
    FormatRoundTrip(LayoutTokens(o, c), BLANK_FIELDS, o, c, TEST_TIME, LOGGER_NAME, LOG_SEVERITY, LOG_STRING);
  }

  /** The formats of the brace and parenthesis test entries. */
  const CURLY_FORMAT: string := "%(asctime)s: {%(name)s} {%(levelname)s} %(message)s"
  const PARENTHESES_FORMAT: string := "%(asctime)s: (%(name)s) (%(levelname)s) %(message)s"

  /** The default format is the layout with square brackets. */
  lemma DefaultFormatLayout()
    ensures FormatFor("[", "]") == DEFAULT_LOG_FORMAT
  {
    var s := "%(asctime)s:" + " ";
    assert s == "%(asctime)s: ";
    s := s + "[";
    assert s == "%(asctime)s: [";
    s := s + "%(name)s";
    assert s == "%(asctime)s: [%(name)s";
    s := s + "]";
    assert s == "%(asctime)s: [%(name)s]";
    s := s + " ";
    assert s == "%(asctime)s: [%(name)s] ";
    s := s + "[";
    assert s == "%(asctime)s: [%(name)s] [";
    s := s + "%(levelname)s";
    assert s == "%(asctime)s: [%(name)s] [%(levelname)s";
    s := s + "]";
    assert s == "%(asctime)s: [%(name)s] [%(levelname)s]";
    s := s + " %(message)s";
    assert s == DEFAULT_LOG_FORMAT;
  }

  lemma CurlyFormatLayout()
    ensures FormatFor("{", "}") == CURLY_FORMAT
  {
    var s := "%(asctime)s:" + " ";
    assert s == "%(asctime)s: ";
    s := s + "{";
    assert s == "%(asctime)s: {";
    s := s + "%(name)s";
    assert s == "%(asctime)s: {%(name)s";
    s := s + "}";
    assert s == "%(asctime)s: {%(name)s}";
    s := s + " ";
    assert s == "%(asctime)s: {%(name)s} ";
    s := s + "{";
    assert s == "%(asctime)s: {%(name)s} {";
    s := s + "%(levelname)s";
    assert s == "%(asctime)s: {%(name)s} {%(levelname)s";
    s := s + "}";
    assert s == "%(asctime)s: {%(name)s} {%(levelname)s}";
    s := s + " %(message)s";
    assert s == CURLY_FORMAT;
  }

  lemma ParenthesesFormatLayout()
    ensures FormatFor("(", ")") == PARENTHESES_FORMAT
  {
    var s := "%(asctime)s:" + " ";
    assert s == "%(asctime)s: ";
    s := s + "(";
    assert s == "%(asctime)s: (";
    s := s + "%(name)s";
    assert s == "%(asctime)s: (%(name)s";
    s := s + ")";
    assert s == "%(asctime)s: (%(name)s)";
    s := s + " ";
    assert s == "%(asctime)s: (%(name)s) ";
    s := s + "(";
    assert s == "%(asctime)s: (%(name)s) (";
    s := s + "%(levelname)s";
    assert s == "%(asctime)s: (%(name)s) (%(levelname)s";
    s := s + ")";
    assert s == "%(asctime)s: (%(name)s) (%(levelname)s)";
    s := s + " %(message)s";
    assert s == PARENTHESES_FORMAT;
  }

  /** The three delimiter pairs the tests use are simple ones. */
  lemma TestDelimitersSimple()
    ensures SimpleDelimiters("[", "]") && TestDelimiters("[", "]")
    ensures SimpleDelimiters("{", "}") && TestDelimiters("{", "}")
    ensures SimpleDelimiters("(", ")") && TestDelimiters("(", ")")
  {
  }

  /** The default format with no overrides decodes the bracketed test line. */
  lemma DefaultCase()
    ensures ConstructModelled(PyStr(DEFAULT_LOG_FORMAT), NO_OVERRIDES)
    ensures Construct(LineFor("[", "]", TEST_TIME, LOGGER_NAME, LOG_SEVERITY, LOG_STRING),
                      PyStr(DEFAULT_LOG_FORMAT), NO_OVERRIDES) ==
            Ok((DefaultTokens(), EXPECTED))
  {
    NoOverridesMerge();
    DefaultLayout();
    TestDelimitersSimple();
    DefaultFormatLayout();
    LayoutCase("[", "]", NO_OVERRIDES);
  }

  /** Curly-brace delimiters on `name` and `levelname` decode the braced test line. */
  lemma CurlyBracesCase()
    ensures ConstructModelled(PyStr(CURLY_FORMAT), LayoutOverrides("{", "}"))
    ensures Construct(LineFor("{", "}", TEST_TIME, LOGGER_NAME, LOG_SEVERITY, LOG_STRING),
                      PyStr(CURLY_FORMAT), LayoutOverrides("{", "}")) ==
            Ok((LayoutTokens("{", "}"), EXPECTED))
  {
    LayoutMerge("{", "}");
    TestDelimitersSimple();
    CurlyFormatLayout();
    LayoutCase("{", "}", LayoutOverrides("{", "}"));
  }

  /** Parenthesis delimiters on `name` and `levelname` decode the parenthesised test line. */
  lemma ParenthesesCase()
    ensures ConstructModelled(PyStr(PARENTHESES_FORMAT), LayoutOverrides("(", ")"))
    ensures Construct(LineFor("(", ")", TEST_TIME, LOGGER_NAME, LOG_SEVERITY, LOG_STRING),
                      PyStr(PARENTHESES_FORMAT), LayoutOverrides("(", ")")) ==
            Ok((LayoutTokens("(", ")"), EXPECTED))
  {
    LayoutMerge("(", ")");
    TestDelimitersSimple();
    ParenthesesFormatLayout();
    LayoutCase("(", ")", LayoutOverrides("(", ")"));
  }
}
