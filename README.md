# AppLogging log entries, in Dafny

AppLogging is a thin layer over Python's `logging` module. Its `LogEntry`
class reads a line that a logger wrote and recovers what went into it. It
takes the line, the logging format that wrote it (by default
`%(asctime)s: [%(name)s] [%(levelname)s] %(message)s`) and a token map. The
token map says, for each `%(...)` token of the format, which property of the
entry the token feeds (`mapto`) and which two delimiters surround it in the
line (`delimiters`).

Three steps build an entry:

1. `_merge_token_map` merges the default token map into an empty map, then
   merges the caller's overrides over it, entry by entry. Each override
   attribute falls back to the default table, then to fixed fallbacks.
2. `_decode_log_entry` turns the format into a regular expression. Every
   placeholder of a known token becomes a named group between its (escaped)
   delimiters, and the message placeholder is deleted.
3. `_decode_log_entry` then matches the line. Each captured group sets the
   property its token maps to, and the group's delimited text is cut out of
   the line. What is left, stripped, becomes the message.

The logging module around it also validates level names (`set_log_level`)
and the arguments of the timed rotating file handler.

The model is in these files:

- `pyvalues.dfy`: the Python values the code inspects (`str`, `int`,
  `bool`, list, anything else by its truth value), and insertion-ordered
  dicts.
- `pytext.dfy`: `str.replace` (empty pattern included), `str.strip` and
  `str.upper` as far as the code needs them, with their laws.
- `regex.dfy`: the part of `re` the compiled patterns use. Literal
  characters (`\[`-style escapes included) and named groups `(?P<name>.*)`
  are parsed. `re.compile` rejects a group name used twice. `re.match` is
  an anchored, greedy, backtracking matcher, proved sound and complete
  against a declarative "these values fit" relation.
- `tokenmaps.dfy`: the constant tables and `_merge_token_map` as a
  function on values, with its outcome and its resulting map.
- `template.dfy`: the compile loop of `_decode_log_entry` as a function. It
  is proved to turn any format written from a template (literal text,
  placeholders, message placeholder) into that template's pattern.
- `entry.dfy`: the `LogEntry` class. Its fields are the nine private
  properties and the token map. Its methods carry the loops of the source,
  each proved equal to the value-level function that specifies it.
- `levels.dfy`: `is_valid_log_level_string`, the check at the start of
  `set_log_level` and the assertions of `handler_to_timed_rotating_file`.
- `default_format.dfy` and `entry_cases.dfy`: the default format, read back
  end to end. They cover the three entry cases of the repository's own
  entry tests (square brackets, curly braces, parentheses).

Failed assertions and the `ValueError` of `set_log_level` are modelled as
`Err`/`Fail` values. Each one carries which check failed.

Code and documentation disagree in two places, and the model follows the
code:

- `logging.py` imports `VALID_LOG_LEVELS` from `constants.py`, which does
  not define it. The vocabulary is taken from the same list in
  `tests/constants.py`. It is also what `getLevelNamesMapping()` gives by
  default.
- The entry tests use `DEFAULT_LOG_SEVERITY`. That constant is in none of
  the files modelled here, so the model takes it as `"ERROR"`. Any name
  without `[`, `]`, `{`, `}`, `(`, `)`, `:` and spaces behaves the same.

## Model

| member | source | states |
|---|---|---|
| Levels.IsValidLogLevelString | src/applogging/logging.py:81-104 | true exactly when the level is a `str` whose upper case is a vocabulary name (both directions); every non-string is rejected |
| Levels.CaseInsensitive | src/applogging/logging.py:104 | two spellings with the same upper case, character by character, are both accepted or both rejected |
| Levels.VocabularyAccepted | tests/constants.py:46-55 | every vocabulary name is accepted, in upper and in lower case |
| Levels.DotlessSpellingsAccepted | src/applogging/logging.py:104 | "ınfo" and "crıtıcal" are accepted, because `upper()` maps the dotless `ı` to `I` |
| Levels.LongSSpellingAccepted | src/applogging/logging.py:311-314 | "notſet" passes and sets the level `NOTSET`, because `upper()` maps `ſ` to `S` |
| Levels.InvalidNamesRejected | src/applogging/logging.py:95 | the default empty string, "no level" and every non-string are rejected, and validation never raises |
| Levels.SetLogLevel | src/applogging/logging.py:311-314 | `ValueError` exactly when the validator rejects the level; otherwise the name handed to `setLevel` is a vocabulary name equal to the input up to case |
| Levels.CheckTimedRotatingArgs | src/applogging/logging.py:474-485 | the handler is built exactly when the file name is a non-empty `str`, `when` is one of `W0`..`W6`, `at_time` is a time and `copies` is an `int` (`bool` included) >= 0; the `when` error arises only after both file name checks pass |
| Levels.TimedRotatingDefaultsAccepted | src/applogging/logging.py:66-70 | the defaults `W6` and 5 pass; `True` passes as a copy count; `W7` fails the `when` check and -1 fails the copies check |
| PyText.ReplaceAbsent | src/applogging/entry.py:422 | `replace` leaves a string in which the pattern never occurs unchanged |
| PyText.DeleteShrinks | src/applogging/entry.py:422 | deleting every occurrence never lengthens the line |
| PyText.ReplaceBySelf | src/applogging/entry.py:394 | replacing a text by itself changes nothing, the empty pattern included |
| PyText.ReplaceConcat | src/applogging/entry.py:394 | when no occurrence straddles the boundary, replacing in a concatenation replaces in each half |
| PyText.ReplacePrefixFree | src/applogging/entry.py:394 | with no occurrence starting in the prefix, replacing leaves the prefix alone and replaces in the rest |
| PyText.ReplaceSingle | src/applogging/entry.py:422 | when the pattern occurs only once, replacing every occurrence cuts out exactly that one |
| PyText.ReplaceMarked | src/applogging/entry.py:422 | a pattern with a character found nowhere else after its position occurs once, and is the one cut out |
| PyText.ReplaceLed | src/applogging/entry.py:422 | a pattern whose first character appears elsewhere only before a different second character occurs once, and is the one cut out |
| PyText.Strip | src/applogging/entry.py:425 | the stripped message neither starts nor ends with whitespace and is no longer than the text |
| PyText.StripPadded | src/applogging/entry.py:425 | stripping removes exactly the whitespace padding around a core without edge whitespace |
| PyText.StripIdempotent | src/applogging/entry.py:425 | stripping twice is stripping once |
| Regex.Run | src/applogging/entry.py:388-392 | how far a group's `.*` reaches: the longest prefix without a line feed |
| Regex.ParsePlain | src/applogging/entry.py:400 | text without `re` metacharacters reads as its own characters |
| Regex.ParseGroup | src/applogging/entry.py:388-392 | `(?P<name>.*)` with an identifier name reads as one group |
| Regex.ParseConcat | src/applogging/entry.py:400 | reading a concatenation reads each part, unless a trailing `{` would become a quantifier |
| Regex.MatchSound | src/applogging/entry.py:400 | a match's captured values, put back into the pattern, spell a prefix of the line, and each capture is listed under its group's name, in order |
| Regex.MatchComplete | src/applogging/entry.py:400 | whenever some values of the groups fit the line, `re.match` succeeds |
| Regex.MatchExists | src/applogging/entry.py:400 | `re.match` succeeds exactly when some values of the groups fit the line |
| Regex.MatchNeedsLeadingChars | src/applogging/entry.py:400 | the pattern is anchored: a line that matches starts with the pattern's leading literal text |
| Regex.MatchRoundTrip | src/applogging/entry.py:400 | a line written from the pattern with values free of line feeds, where no group has a longer greedy choice, is matched with exactly those values whatever follows |
| Regex.CapturesNamed | src/applogging/entry.py:401 | `groupdict().items()` lists the pattern's groups in order |
| TokenMaps.DefaultKeysDistinct | src/applogging/entry.py:58-76 | the seventeen default token names are pairwise distinct |
| TokenMaps.DefaultKeysCover | src/applogging/entry.py:58-76 | the default table has an entry for exactly the default token names |
| TokenMaps.DefaultEntriesMerge | src/applogging/entry.py:58-76 | every entry of `DEFAULT_TOKEN_MAP` passes the merge checks and becomes its typed entry |
| TokenMaps.MergeEntryResolution | src/applogging/entry.py:298-329 | `MergeEntry`, the entry built for one override: each attribute is the override's own, else the default table's for that token, else `""` or `["[", "]"]`; the entry is refused exactly when the override gives a non-`str` `mapto` or a non-list `delimiters` |
| TokenMaps.MergePrefixOutcome | src/applogging/entry.py:292-333 | merging the first `n` override entries succeeds exactly when each passes its checks; otherwise the error is that of the first entry that fails |
| TokenMaps.MergePrefixStops | src/applogging/entry.py:294-329 | once an entry fails, the entries after it do not change the error |
| TokenMaps.MergePrefixResult | src/applogging/entry.py:333 | a successful merge loses no key, appends the new keys in the overrides' order, puts the merged entry under each overridden key and keeps every other entry |
| TokenMaps.MergeSpec | src/applogging/entry.py:289-333 | `Merge`, all of `_merge_token_map`: a non-dict map raises; otherwise it succeeds exactly when every entry merges, reports the first failing entry, and the new map keeps every key in order, appends the new keys and holds the merged entry under each overridden key and the old entry elsewhere |
| TokenMaps.MergeIdempotent | src/applogging/entry.py:275-333 | merging the same overrides a second time changes nothing |
| TokenMaps.MergeIgnoresCurrentMap | src/applogging/entry.py:307-319 | an overridden entry does not depend on the map it is merged into; missing attributes come from the default table, never from the current map |
| TokenMaps.PresentKeysKept | src/applogging/entry.py:333 | overriding only keys the map already holds keeps its order of keys |
| TokenMaps.DefaultsMergeCleanly | src/applogging/entry.py:170 | merging `DEFAULT_TOKEN_MAP` into the empty map cannot fail and gives the default table in its source order |
| Template.CompileOutcome | src/applogging/entry.py:362-369 | the compile loop succeeds exactly when every entry of the map has at least two delimiters; otherwise it raises for the first such key in the map's order |
| Template.CompileFromStops | src/applogging/entry.py:367-369 | once the loop has raised at a key, later keys do not change the error |
| Template.PlaceholderPercent | src/applogging/entry.py:376-380 | the only `%` of a placeholder is the one after its opening delimiter, followed by `(token)` |
| Template.NoEarlyOccurrence | src/applogging/entry.py:394 | a token's placeholder occurs in a rendered format nowhere but at that token's own slots |
| Template.ReplaceStep | src/applogging/entry.py:394 | one pass of the loop turns exactly the placeholders of its token into that token's group and leaves the rest of the format as it was |
| Template.CompileFromTemplate | src/applogging/entry.py:362-394 | after `n` keys, the loop has turned exactly the placeholders of those keys into groups |
| Template.MessageStep | src/applogging/entry.py:398 | deleting the message placeholder from a format whose placeholders are all groups leaves the pattern text |
| Template.CompileTemplate | src/applogging/entry.py:360-398 | `CompileFormat`, the whole compile: a format written from a template compiles to the template's pattern text |
| Template.ParseDelimiter | src/applogging/entry.py:382-386 | a delimiter, escaped when it is one of `[ ] ( )`, reads as its own characters |
| Template.ParseSlot | src/applogging/entry.py:388-392 | a placeholder's replacement reads as its two delimiters around one group |
| Template.ParseTemplate | src/applogging/entry.py:382-392 | the compiled pattern text reads as the template's pattern |
| Template.PatternGroups | src/applogging/entry.py:388-392 | the groups of the template's pattern are its placeholders' tokens, in order |
| Template.CompileReadable | src/applogging/entry.py:400 | `re.compile` accepts the compiled text of a template whose tokens appear once each, and gives the template's pattern |
| Template.TemplateRoundTrip | src/applogging/entry.py:355-400 | for a format ending with the message placeholder, the compiled pattern matches a line written with it and lists each token with the value it was written with, when values hold no line feed and each group's greedy choice is its own value |
| Entry.GetFieldNames | src/applogging/entry.py:189-264 | exactly the nine property names can be read |
| Entry.SetFieldSpec | src/applogging/entry.py:413-414 | setting by a `mapto` that names a property makes it read as the text and leaves every other property alone; any other `mapto` changes nothing |
| Entry.LogEntry.Blank | src/applogging/entry.py:156-167 | the private attributes start empty, the two ids 0, and the token map empty |
| Entry.MergeOne | src/applogging/entry.py:294-329 | one pass of the merge loop gives `MergeEntry` for the key |
| Entry.BuildEntry | src/applogging/entry.py:298-319 | the entry built before the checks holds each attribute resolved from override, defaults and fallbacks, and checking it is `MergeEntry` |
| Entry.LogEntry.MergeAt | src/applogging/entry.py:294-333 | one turn of the merge loop stores the entry for the key or stops with its error, agreeing with `MergePrefix`; the properties are unchanged |
| Entry.LogEntry.MergeEntries | src/applogging/entry.py:292-333 | the loop over the override entries leaves the token map or the error that `MergePrefix` gives, with the properties unchanged |
| Entry.LogEntry.MergeTokenMap | src/applogging/entry.py:275-333 | `_merge_token_map` succeeds exactly when `Merge` does, the new token map is `Merge` of the old one, its error is `Merge`'s, and the properties are unchanged |
| Entry.TokenPatterns | src/applogging/entry.py:372-392 | the placeholder text of a token and the named group replacing it, with `[ ] ( )` delimiters escaped |
| Entry.CompileStopsAt | src/applogging/entry.py:367-369 | a token without two delimiters ends the compile with its error |
| Entry.CompileToken | src/applogging/entry.py:362-394 | one pass of the compile loop replaces the token's placeholder by its group, or ends the compile with the error `CompileFormat` gives |
| Entry.CompilePattern | src/applogging/entry.py:360-398 | the compile loop and the message deletion give exactly `CompileFormat` |
| Entry.LogEntry.SetAttribute | src/applogging/entry.py:413-414 | the properties become `SetField` of the old ones; the token map is unchanged |
| Entry.AssignedCons | src/applogging/entry.py:413-414 | of several groups mapped to the same property, the last one wins |
| Entry.ApplyCapturesStep | src/applogging/entry.py:403-422 | one group: a token without two delimiters raises; otherwise its property is set and its delimited value is cut out of the line |
| Entry.ApplyCapturesOutcome | src/applogging/entry.py:403-420 | `ApplyCaptures`, the loop over the groups, succeeds exactly when every group's token has two delimiters; otherwise it raises for the first group whose token does not |
| Entry.ApplyCapturesFields | src/applogging/entry.py:403-422 | after the loop each property holds the value of the last group mapped to it, or its old value; what is left of the line is no longer than the line |
| Entry.LogEntry.ApplyGroups | src/applogging/entry.py:401-422 | the loop over `groupdict().items()` succeeds exactly when `ApplyCaptures` does, leaving its properties and remaining line, and otherwise raises its error; the token map is unchanged |
| Entry.LogEntry.ApplyNoMatch | src/applogging/entry.py:425 | without a match the whole line, stripped, is the message and nothing else changes |
| Entry.LogEntry.ApplyMatchGroups | src/applogging/entry.py:401-425 | with a match, the groups are applied and the stripped rest of the line is the message, as `Conclude` says, or the loop's error is raised |
| Entry.LogEntry.ApplyMatch | src/applogging/entry.py:400-425 | the end of the decode agrees with `Conclude` for a match and for no match |
| Entry.ConcludeSome | src/applogging/entry.py:401-425 | a match's outcome is that of applying its groups, with the stripped rest as the message |
| Entry.DecodeOutcome | src/applogging/entry.py:355-420 | `Decode`, all of `_decode_log_entry`: an empty format and a non-string format raise; the compile succeeds exactly when every entry has two delimiters; decoding succeeds exactly when the format is a non-empty string that compiles to a pattern with distinct groups and, if the line matches, every group's token has two delimiters |
| Entry.DecodeValue | src/applogging/entry.py:398-425 | a successful decode is the captures applied to the entry, or the entry with the stripped line as message when the line does not match |
| Entry.DecodeMatch | src/applogging/entry.py:400-425 | decoding a matching line applies its captures and makes the stripped rest the message, or raises the loop's error |
| Entry.DecodeFields | src/applogging/entry.py:400-425 | after a decode, each property other than the message holds the last group mapped to it or keeps its value; the message is stripped, no longer than the line, and the whole stripped line when nothing matched |
| Entry.OtherFieldKept | src/applogging/entry.py:425 | setting the message leaves every other property alone |
| Entry.LogEntry.DecodeLogEntry | src/applogging/entry.py:339-425 | `_decode_log_entry` succeeds exactly when `Decode` does, the new properties are `Decode` of the old ones, its error is `Decode`'s, and the token map is unchanged |
| Entry.NewLogEntry | src/applogging/entry.py:130-178 | `Construct`, the constructor: the defaults are merged, then the overrides, then the line is decoded; the new entry exists exactly when `Construct` succeeds and holds its token map and properties, and otherwise the error is `Construct`'s |
| DefaultFormat.FormatMatches | src/applogging/constants.py:44 | the default format and its variants compile to the template's pattern, `re` reads it with three distinct groups, and it matches a line written with the format, capturing the time, the logger name and the severity in order |
| DefaultFormat.StripSpaces | src/applogging/entry.py:425 | the spaces the decode leaves before the message are stripped away |
| DefaultFormat.FormatRoundTrip | src/applogging/constants.py:44 | decoding a line written with the default format, or a variant with other one-character delimiters, gives back the time, the logger name, the severity and the message and keeps every other property |
| EntryCases.NoOverridesMerge | src/applogging/entry.py:170-173 | with no overrides the constructor's token map is the default table |
| EntryCases.NameOverrideMerges | tests/logger/test_entry.py:67 | the override `{"delimiters": [o, c]}` of `name` keeps the default `mapto` `logger_name` |
| EntryCases.LevelOverrideMerges | tests/logger/test_entry.py:68 | the same override of `levelname` keeps the default `mapto` `severity` |
| EntryCases.LayoutMerge | tests/logger/test_entry.py:66-69 | merging the two delimiter overrides into the default map changes only those two entries and keeps the default order |
| EntryCases.DefaultFormatLayout | src/applogging/constants.py:44 | the default format is the format with square brackets |
| EntryCases.LayoutCase | tests/logger/test_entry.py:129-137 | a test line with any of the three delimiter pairs, and overrides giving them, constructs the entry whose message, severity and logger name are the test constants |
| EntryCases.DefaultCase | tests/logger/test_entry.py:52-58 | the default format with no overrides decodes the bracketed test line into the expected entry |
| EntryCases.CurlyBracesCase | tests/logger/test_entry.py:60-70 | curly-brace delimiters on `name` and `levelname` decode the braced test line into the expected entry |
| EntryCases.ParenthesesCase | tests/logger/test_entry.py:71-81 | parenthesis delimiters on `name` and `levelname` decode the parenthesised test line into the expected entry |

## Left out

- Entry.ApplyCaptures: a `mapto` that names an attribute of the instance other than the nine properties is a no-op in the model. In the source, `hasattr` finds such attributes (entry.py:413-414). `mapto` `"token_map"` overwrites `_token_map`, so the next group's lookup raises `AttributeError`. `"_class__"` and `"_dict__"` raise `TypeError`. Method names such as `"decode_log_entry"` replace the method with a string on the instance.
- Entry.SetField: the same `hasattr` quirk; only the nine property names are settable.
- Entry.LogEntry.SetAttribute: the same `hasattr` quirk; the method never touches the token map.
- Entry.Decode: it requires the compiled pattern to be in the fragment of `re` that `Regex.Parse` reads: literal characters, `\[`-style escapes and named groups `(?P<name>.*)` with ASCII identifier names. So the `re.error` paths are not modelled: a token name that is not an identifier, a format or delimiter holding other regular-expression syntax, and non-ASCII group names. A group name used twice is modelled, as an error.
- Entry.LogEntry.DecodeLogEntry: the same requirement as `Decode`.
- Entry.Construct: the same requirement, through `ConstructModelled`. `msg` is a `string`, so the `TypeError` that `re.match` raises for a non-string line (entry.py:400) is not modelled.
- Entry.NewLogEntry: the same requirement and the same `string` line as `Construct`. The constructor's default arguments (entry.py:132-134) are not modelled; each call passes all three. A constructor that raises leaves no entry, so the half-built object is not modelled.
- TokenMaps.MergeEntry: a list value is known only by the `str()` text of its items. That is all the f-strings at entry.py:376-392 and 420 can see, so `[1, 2]` decodes like `["1", "2"]`. One difference remains: a non-`str` item whose `str()` is one of `[ ] ( )` is escaped by the model, but it is not escaped by the source, because `in DELIMITERS_TO_ESCAPE` compares it with strings.
- Entry.LogEntry.MergeTokenMap: when an entry fails, the contract states the error but not the token map. The source has already stored the entries before the failing one, and the contract does not describe that partial map.
- Levels.IsValidLogLevelString: the vocabulary is the eight standard names. Names added at run time with `logging.addLevelName` are not seen, though `getLevelNamesMapping()` (logging.py:98-101) would include them. The Python-version switch is not modelled. `Upper` maps the ASCII small letters, `ı` and `ſ`, the only characters whose upper case is one ASCII letter. Other characters are kept: their upper case is either not ASCII or, like `ß` to `SS` and the `ﬀ`-`ﬆ` ligatures, several letters that spell no vocabulary name in place.
- Levels.SetLogLevel: the logger assertions (logging.py:306-309) and the `setLevel` call are not modelled. The function gives the name that would be passed.
- Levels.CheckTimedRotatingArgs: `at_time` is reduced to whether it is a `datetime.time`. Building, configuring and returning the handler (logging.py:488-502) is not modelled.
- PyText.Strip: only ASCII whitespace is stripped (space, `\t`, `\n`, `\v`, `\f`, `\r` and `\x1c`-`\x1f`). Python's `str.strip()` also strips Unicode spaces such as U+00A0.
- Entry.LogEntry: the read-only properties (entry.py:189-264) are modelled as the `Properties()` function and the `GetField` lookup, not as separate getters.
- The rest of `logging.py` (creating loggers, console and file handlers, formatters, `_set_handler_config`) does not decide any value the model computes. It configures Python's `logging` module, and it is not part of this model.
