/**
  `LogEntry`: a log line taken apart again with the logging format that
  wrote it. The constructor sets every property to its blank value, merges
  the default token map and then the caller's overrides into its own token
  map, and decodes the line: each token whose placeholder the format holds
  is read back by the compiled pattern, stored in the property its `mapto`
  names, and cut (with its delimiters) out of the line; what is left,
  stripped, is the message.
 */
module Entry {
  import opened Wrappers
  import opened PyValues
  import opened PyText
  import opened TokenMaps
  import opened Regex
  import opened Template

  /** What the constructor raises. */
  datatype EntryError = MergeFailed(merge: MergeError) | DecodeFailed(decode: DecodeError)

  /** The values of an entry's nine read-only properties. The two ids start
      as the integer 0 and, once decoded, hold the text that was captured. */
  datatype Fields = Fields(
    time: string,
    loggerName: string,
    severity: string,
    source: string,
    processId: PyValue,
    processName: string,
    threadId: PyValue,
    threadName: string,
    message: string)

  /** The properties of an entry before anything is decoded. */
  const BLANK_FIELDS: Fields := Fields("", "", "", "", PyInt(0), "", PyInt(0), "", "")

  /** The `mapto` values that name a property: the private attribute is the
      name with a leading underscore. */
  const FIELD_NAMES: seq<string> := [
    "time", "logger_name", "severity", "source", "process_id",
    "process_name", "thread_id", "thread_name", "message"
  ]

  /** The default `format` argument of the constructor. */
  const DEFAULT_LOG_FORMAT: string := "%(asctime)s: [%(name)s] [%(levelname)s] %(message)s"

  /** A property read by the name a `mapto` gives it; `None` for any other name. */
  function GetField(f: Fields, name: string): Option<PyValue> {
    if name == "time" then Some(PyStr(f.time))
    else if name == "logger_name" then Some(PyStr(f.loggerName))
    else if name == "severity" then Some(PyStr(f.severity))
    else if name == "source" then Some(PyStr(f.source))
    else if name == "process_id" then Some(f.processId)
    else if name == "process_name" then Some(PyStr(f.processName))
    else if name == "thread_id" then Some(f.threadId)
    else if name == "thread_name" then Some(PyStr(f.threadName))
    else if name == "message" then Some(PyStr(f.message))
    else None
  }

  /** Stores `val` in the property a non-empty `mapto` names; any other
      `mapto` (empty, or naming no property) leaves the properties alone. */
  function SetField(f: Fields, mapto: string, val: string): Fields {
    if mapto == "time" then f.(time := val)
    else if mapto == "logger_name" then f.(loggerName := val)
    else if mapto == "severity" then f.(severity := val)
    else if mapto == "source" then f.(source := val)
    else if mapto == "process_id" then f.(processId := PyStr(val))
    else if mapto == "process_name" then f.(processName := val)
    else if mapto == "thread_id" then f.(threadId := PyStr(val))
    else if mapto == "thread_name" then f.(threadName := val)
    else if mapto == "message" then f.(message := val)
    else f
  }

  /** Exactly the names in `FIELD_NAMES` can be read. */
  lemma GetFieldNames(f: Fields, name: string)
    ensures GetField(f, name).Some? <==> name in FIELD_NAMES
  {
  }

  /** Setting a property by name: the named property then reads as the text,
      every other property is unchanged, and a name that is not a property
      (the empty name included) changes nothing. */
  lemma SetFieldSpec(f: Fields, mapto: string, val: string)
    ensures mapto in FIELD_NAMES ==> GetField(SetField(f, mapto, val), mapto) == Some(PyStr(val))
    ensures forall name :: name != mapto ==> GetField(SetField(f, mapto, val), name) == GetField(f, name)
    ensures mapto !in FIELD_NAMES ==> SetField(f, mapto, val) == f
  {
  }

  // ---------------------------------------------------------------------
  // Decoding, as functions
  // ---------------------------------------------------------------------

  /** The loop over `match.groupdict().items()`: for each group, the property
      its token's `mapto` names takes the captured text, and the text with
      the token's delimiters around it is cut out of the line everywhere it
      occurs. A group whose token is not in the map has no delimiters, which
      the loop's assertion refuses. Gives the properties and what is left of
      the line. */
  function ApplyCaptures(tm: TokenMap, f: Fields, line: string, caps: seq<Capture>): Result<(Fields, string), DecodeError>
    decreases |caps|
  {
    if caps == [] then Ok((f, line))
    else
      var c := caps[0];
      if !HasDelimiters(tm, c.name) then Err(DelimitersInvalid(c.name))
      else
        var e := tm.values[c.name];
        ApplyCaptures(tm, SetField(f, e.mapto, c.value),
                      ReplaceAll(line, e.delimiters[0] + c.value + e.delimiters[1], ""), caps[1..])
  }

  /** The compiled pattern text of a string format lies in the fragment of
      `re` that `Regex.Parse` reads. */
  predicate DecodeModelled(tm: TokenMap, format: PyValue) {
    format.PyStr? && format.s != [] && CompileFormat(tm, format.s).Ok? ==>
      Parse(CompileFormat(tm, format.s).value).Some?
  }

  /** `_decode_log_entry(msg, format)` on an entry whose properties are `f`:
      the new properties, or the error it raises. */
  function Decode(tm: TokenMap, f: Fields, msg: string, format: PyValue): Result<Fields, DecodeError>
    requires DecodeModelled(tm, format)
  {
    if !Truthy(format) then Err(FormatEmpty)
    else if !format.PyStr? then Err(FormatNotString)
    else match CompileFormat(tm, format.s)
      case Err(e) => Err(e)
      case Ok(text) =>
        var p := Parse(text).value;
        if !Distinct(GroupNames(p)) then Err(GroupRedefined)
        else Conclude(tm, f, msg, Match(p, msg))
  }

  /** A match's outcome, by the outcome of applying its groups. */
  lemma ConcludeSome(tm: TokenMap, f: Fields, msg: string, caps: seq<Capture>)
    ensures ApplyCaptures(tm, f, msg, caps).Err? ==>
            Conclude(tm, f, msg, Some(caps)) == Err(ApplyCaptures(tm, f, msg, caps).error)
    ensures ApplyCaptures(tm, f, msg, caps).Ok? ==>
            var (g, rest) := ApplyCaptures(tm, f, msg, caps).value;
            Conclude(tm, f, msg, Some(caps)) == Ok(g.(message := Strip(rest)))
  {
  }

  /** What `_decode_log_entry` does once `re.match` has answered: the groups
      of a match applied to the properties, and the message set to what is
      left of the line, stripped (the whole line when nothing matched). */
  function Conclude(tm: TokenMap, f: Fields, msg: string, found: Option<seq<Capture>>): Result<Fields, DecodeError> {
    match found
    case None => Ok(f.(message := Strip(msg)))
    case Some(caps) =>
      match ApplyCaptures(tm, f, msg, caps)
      case Err(e) => Err(e)
      case Ok(r) => Ok(r.0.(message := Strip(r.1)))
  }

  /** The token map the constructor builds: the defaults, then the overrides
      merged over them. */
  function TokenMapFor(overrides: Overrides): Result<TokenMap, MergeError> {
    Merge(DefaultTokens(), overrides)
  }

  predicate ConstructModelled(format: PyValue, overrides: Overrides) {
    TokenMapFor(overrides).Ok? ==> DecodeModelled(TokenMapFor(overrides).value, format)
  }

  /** `LogEntry(msg, format, token_map)`: the entry's token map and properties,
      or the error the constructor raises. */
  function Construct(msg: string, format: PyValue, overrides: Overrides): Result<(TokenMap, Fields), EntryError>
    requires ConstructModelled(format, overrides)
  {
    match TokenMapFor(overrides)
    case Err(e) => Err(MergeFailed(e))
    case Ok(tm) =>
      match Decode(tm, BLANK_FIELDS, msg, format)
      case Err(e) => Err(DecodeFailed(e))
      case Ok(f) => Ok((tm, f))
  }

  // ---------------------------------------------------------------------
  // Properties of decoding
  // ---------------------------------------------------------------------

  /** The text of the last group whose token's `mapto` is `name`, if any. */
  function Assigned(tm: TokenMap, caps: seq<Capture>, name: string): Option<string>
    decreases |caps|
  {
    if caps == [] then None
    else
      var last := caps[|caps| - 1];
      if last.name in tm.values && tm.values[last.name].mapto == name then Some(last.value)
      else Assigned(tm, caps[..|caps| - 1], name)
  }

  /** `Assigned` seen from the first group: a later group mapped to the name
      wins over the first one. */
  lemma {:induction false} AssignedCons(tm: TokenMap, caps: seq<Capture>, name: string)
    requires caps != []
    ensures Assigned(tm, caps, name) ==
              if Assigned(tm, caps[1..], name).Some? then Assigned(tm, caps[1..], name)
              else if caps[0].name in tm.values && tm.values[caps[0].name].mapto == name then Some(caps[0].value)
              else None
    decreases |caps|
  {
    if |caps| == 1 {
      assert caps[1..] == [] && caps[..0] == [];
    } else {
      var init := caps[..|caps| - 1];
      assert init[0] == caps[0];
      assert init[1..] == caps[1..][..|caps[1..]| - 1];
      assert caps[1..][|caps[1..]| - 1] == caps[|caps| - 1];
      AssignedCons(tm, init, name);
    }
  }

  /** The loop over the groups succeeds exactly when every group's token is
      in the map with at least two delimiters; otherwise it raises at the
      first group whose token is not. */
  lemma {:induction false} ApplyCapturesOutcome(tm: TokenMap, f: Fields, line: string, caps: seq<Capture>)
    ensures ApplyCaptures(tm, f, line, caps).Ok? <==>
            forall i :: 0 <= i < |caps| ==> HasDelimiters(tm, caps[i].name)
    ensures ApplyCaptures(tm, f, line, caps).Err? ==>
            exists i :: && 0 <= i < |caps|
                        && ApplyCaptures(tm, f, line, caps).error == DelimitersInvalid(caps[i].name)
                        && !HasDelimiters(tm, caps[i].name)
                        && forall j :: 0 <= j < i ==> HasDelimiters(tm, caps[j].name)
    decreases |caps|
  {
    if caps != [] {
      ApplyCapturesStep(tm, f, line, caps);
      if HasDelimiters(tm, caps[0].name) {
        var e := tm.values[caps[0].name];
        var f1 := SetField(f, e.mapto, caps[0].value);
        var line1 := ReplaceAll(line, e.delimiters[0] + caps[0].value + e.delimiters[1], "");
        ApplyCapturesOutcome(tm, f1, line1, caps[1..]);
        assert forall i :: 1 <= i < |caps| ==> caps[i] == caps[1..][i - 1];
        if ApplyCaptures(tm, f, line, caps).Err? {
          var i :| && 0 <= i < |caps[1..]|
                   && ApplyCaptures(tm, f1, line1, caps[1..]).error == DelimitersInvalid(caps[1..][i].name)
                   && !HasDelimiters(tm, caps[1..][i].name)
                   && forall j :: 0 <= j < i ==> HasDelimiters(tm, caps[1..][j].name);
          assert caps[i + 1] == caps[1..][i];
        }
      }
    }
  }

  /** After the loop over the groups, each property holds the text of the
      last group whose token maps to it, or its old value when there is
      none; and what is left of the line is no longer than the line. */
  lemma {:induction false} ApplyCapturesFields(tm: TokenMap, f: Fields, line: string, caps: seq<Capture>, name: string)
    requires ApplyCaptures(tm, f, line, caps).Ok?
    requires name in FIELD_NAMES
    ensures GetField(ApplyCaptures(tm, f, line, caps).value.0, name) ==
            if Assigned(tm, caps, name).Some? then Some(PyStr(Assigned(tm, caps, name).value)) else GetField(f, name)
    ensures |ApplyCaptures(tm, f, line, caps).value.1| <= |line|
    decreases |caps|
  {
    if caps != [] {
      ApplyCapturesStep(tm, f, line, caps);
      var c := caps[0];
      var e := tm.values[c.name];
      var f1 := SetField(f, e.mapto, c.value);
      var line1 := ReplaceAll(line, e.delimiters[0] + c.value + e.delimiters[1], "");
      ApplyCapturesFields(tm, f1, line1, caps[1..], name);
      DeleteShrinks(line, e.delimiters[0] + c.value + e.delimiters[1]);
      AssignedCons(tm, caps, name);
      SetFieldSpec(f, e.mapto, c.value);
    }
  }

  /** The pattern `_decode_log_entry` matches with, for a format it compiles. */
  function PatternFor(tm: TokenMap, format: string): Pattern
    requires CompileFormat(tm, format).Ok? && Parse(CompileFormat(tm, format).value).Some?
  {
    Parse(CompileFormat(tm, format).value).value
  }

  /** Decoding raises exactly when the format is empty or not a string, when
      some entry of the map has fewer than two delimiters, when the pattern
      names a group twice, or when the line matches and one of the groups
      is not a token of the map with two delimiters. */
  lemma DecodeOutcome(tm: TokenMap, f: Fields, msg: string, format: PyValue)
    requires DecodeModelled(tm, format)
    ensures !Truthy(format) ==> Decode(tm, f, msg, format) == Err(FormatEmpty)
    ensures Truthy(format) && !format.PyStr? ==> Decode(tm, f, msg, format) == Err(FormatNotString)
    ensures format.PyStr? ==>
              (CompileFormat(tm, format.s).Ok? <==> forall i :: 0 <= i < |tm.keys| ==> |EntryAt(tm, i).delimiters| >= 2)
    ensures Decode(tm, f, msg, format).Ok? <==>
            && format.PyStr? && format.s != []
            && CompileFormat(tm, format.s).Ok?
            && Distinct(GroupNames(PatternFor(tm, format.s)))
            && (Match(PatternFor(tm, format.s), msg).Some? ==>
                  forall name :: name in GroupNames(PatternFor(tm, format.s)) ==> HasDelimiters(tm, name))
  {
    if format.PyStr? {
      CompileOutcome(tm, format.s, |tm.keys|);
    }
    if format.PyStr? && format.s != [] {
      if CompileFormat(tm, format.s).Ok? {
        var p := PatternFor(tm, format.s);
        var found := Match(p, msg);
        if found.Some? {
          MatchSound(p, msg);
          CapturesNamed(p, Values(found.value));
          ApplyCapturesOutcome(tm, f, msg, found.value);
          assert (forall name :: name in GroupNames(p) ==> HasDelimiters(tm, name)) <==>
                 (forall i :: 0 <= i < |found.value| ==> HasDelimiters(tm, found.value[i].name));
        }
      }
    }
  }

  /** The groups the format's pattern captures on the line: none when the
      format does not compile or the line does not match. */
  function Groups(tm: TokenMap, format: string, msg: string): seq<Capture>
  {
    if CompileFormat(tm, format).Ok? && Parse(CompileFormat(tm, format).value).Some? &&
       Match(PatternFor(tm, format), msg).Some?
    then Match(PatternFor(tm, format), msg).value
    else []
  }

  /** A decode that succeeds compiled the format, and its result is the
      captures applied to the entry, or the entry with the stripped line as
      message when the line does not match. */
  lemma DecodeValue(tm: TokenMap, f: Fields, msg: string, format: PyValue)
    requires DecodeModelled(tm, format) && Decode(tm, f, msg, format).Ok?
    ensures format.PyStr? && CompileFormat(tm, format.s).Ok? && Parse(CompileFormat(tm, format.s).value).Some?
    ensures var found := Match(PatternFor(tm, format.s), msg);
            && (found.None? ==> Decode(tm, f, msg, format).value == f.(message := Strip(msg)))
            && (found.Some? ==>
                  && Groups(tm, format.s, msg) == found.value
                  && ApplyCaptures(tm, f, msg, found.value).Ok?
                  && var r := ApplyCaptures(tm, f, msg, found.value).value;
                     Decode(tm, f, msg, format).value == r.0.(message := Strip(r.1)))
  {
  }

  /** Decoding with a string format that compiles, whose pattern `re`
      reads with its groups apart and matches the line: the captures applied
      to the entry, the message being what is left of the line, stripped. */
  lemma DecodeMatch(tm: TokenMap, f: Fields, msg: string, format: string, p: Pattern, caps: seq<Capture>)
    requires format != [] && CompileFormat(tm, format).Ok?
    requires Parse(CompileFormat(tm, format).value) == Some(p) && Distinct(GroupNames(p))
    requires Match(p, msg) == Some(caps)
    ensures DecodeModelled(tm, PyStr(format))
    ensures Decode(tm, f, msg, PyStr(format)) ==
            match ApplyCaptures(tm, f, msg, caps)
            case Err(e) => Err(e)
            case Ok(r) => Ok(r.0.(message := Strip(r.1)))
  {
  }

  /** After a decode, each property other than the message holds the text of
      the last group whose token maps to it, or keeps its value (every
      property keeps it when the line does not match); the message is
      stripped, no longer than the line, and is the whole stripped line when
      the line does not match. */
  lemma DecodeFields(tm: TokenMap, f: Fields, msg: string, format: PyValue, name: string)
    requires DecodeModelled(tm, format) && Decode(tm, f, msg, format).Ok?
    requires name in FIELD_NAMES && name != MESSAGE
    ensures GetField(Decode(tm, f, msg, format).value, name) ==
            var caps := Groups(tm, format.s, msg);
            if Assigned(tm, caps, name).Some? then Some(PyStr(Assigned(tm, caps, name).value)) else GetField(f, name)
    ensures NoEdgeSpace(Decode(tm, f, msg, format).value.message)
    ensures |Decode(tm, f, msg, format).value.message| <= |msg|
    ensures Match(PatternFor(tm, format.s), msg).None? ==> Decode(tm, f, msg, format).value.message == Strip(msg)
  {
    DecodeValue(tm, f, msg, format);
    var found := Match(PatternFor(tm, format.s), msg);
    if found.Some? {
      var r := ApplyCaptures(tm, f, msg, found.value).value;
      ApplyCapturesFields(tm, f, msg, found.value, name);
      OtherFieldKept(r.0, Strip(r.1), name);
    } else {
      OtherFieldKept(f, Strip(msg), name);
    }
  }

  /** Setting the message leaves every other property as it was. */
  lemma OtherFieldKept(f: Fields, message: string, name: string)
    requires name != MESSAGE
    ensures GetField(f.(message := message), name) == GetField(f, name)
  {
  }

  // ---------------------------------------------------------------------
  // The class
  // ---------------------------------------------------------------------

  /** One more override entry merged, its outcome being `merged`. */
  lemma MergeOneStep(tm: TokenMap, d: Dict<RawEntry>, n: nat, t: TokenMap, merged: Result<TokenEntry, MergeError>)
    requires n < |d.keys| && MergePrefix(tm, d, n, MergeEntry) == Ok(t)
    requires merged == MergeEntry(d.keys[n], d.values[d.keys[n]])
    ensures merged.Err? ==> MergePrefix(tm, d, |d.keys|, MergeEntry) == Err(merged.error)
    ensures merged.Ok? ==> MergePrefix(tm, d, n + 1, MergeEntry) == Ok(Put(t, d.keys[n], merged.value))
  {
    MergePrefixNext(tm, d, n, MergeEntry, t);
    if merged.Err? {
      MergePrefixStops(tm, d, n + 1, |d.keys|, MergeEntry);
    }
  }

  class LogEntry {
    var time: string
    var loggerName: string
    var severity: string
    var source: string
    var processId: PyValue
    var processName: string
    var threadId: PyValue
    var threadName: string
    var message: string
    var tokenMap: TokenMap

    /** The nine properties. */
    function Properties(): Fields
      reads this
    {
      Fields(time, loggerName, severity, source, processId, processName, threadId, threadName, message)
    }

    /** The private attributes as the constructor first sets them. */
    constructor Blank()
      ensures Properties() == BLANK_FIELDS
      ensures tokenMap == EmptyDict()
    {
      time := "";
      loggerName := "";
      severity := "";
      source := "";
      processId := PyInt(0);
      processName := "";
      threadId := PyInt(0);
      threadName := "";
      message := "";
      tokenMap := EmptyDict();
    }

    /** `_merge_token_map(token_map)`: merges the overrides into the token
        map entry by entry, or raises at the first entry that fails its
        checks. */
    method MergeTokenMap(overrides: Overrides) returns (outcome: Outcome<MergeError>)
      modifies this
      ensures Properties() == old(Properties())
      ensures outcome.Pass? <==> Merge(old(tokenMap), overrides).Ok?
      ensures outcome.Pass? ==> tokenMap == Merge(old(tokenMap), overrides).value
      ensures outcome.Fail? ==> outcome.error == Merge(old(tokenMap), overrides).error
    {
      if overrides.OverridesNotDict? {
        return Fail(MapNotDict);
      }
      outcome := MergeEntries(overrides.entries);
    }

    /** The loop of `_merge_token_map` over the override entries, in order. */
    method MergeEntries(d: Dict<RawEntry>) returns (outcome: Outcome<MergeError>)
      modifies this
      ensures Properties() == old(Properties())
      ensures MergePrefix(old(tokenMap), d, |d.keys|, MergeEntry) ==
              if outcome.Pass? then Ok(tokenMap) else Err(outcome.error)
    {
      ghost var tm0 := tokenMap;
      var i := 0;
      while i < |d.keys|
        invariant 0 <= i <= |d.keys|
        invariant MergePrefix(tm0, d, i, MergeEntry) == Ok(tokenMap)
        invariant Properties() == old(Properties())
      {
        var failed := MergeAt(tm0, d, i);
        if failed.Some? {
          return Fail(failed.value);
        }
        i := i + 1;
      }
      return Pass;
    }

    /** One turn of that loop: the entry for the `i`-th key built and checked,
        then stored, or the error that stops the loop. */
    method MergeAt(ghost tm0: TokenMap, d: Dict<RawEntry>, i: nat) returns (failed: Option<MergeError>)
      requires i < |d.keys| && MergePrefix(tm0, d, i, MergeEntry) == Ok(tokenMap)
      modifies this
      ensures Properties() == old(Properties())
      ensures failed.Some? ==> MergePrefix(tm0, d, |d.keys|, MergeEntry) == Err(failed.value)
      ensures failed.None? ==> MergePrefix(tm0, d, i + 1, MergeEntry) == Ok(tokenMap)
    {
      var key, t := d.keys[i], tokenMap;
      var merged := MergeOne(key, d.values[key]);
      MergeOneStep(tm0, d, i, t, merged);
      if merged.Err? {
        return Some(merged.error);
      }
      tokenMap := Put(t, key, merged.value);
      return None;
    }

    /** Stores `val` in the field `mapto` names, when the entry has such a field. */
    method SetAttribute(mapto: string, val: string)
      modifies this
      ensures tokenMap == old(tokenMap)
      ensures Properties() == SetField(old(Properties()), mapto, val)
    {
      if mapto == "time" {
        time := val;
      } else if mapto == "logger_name" {
        loggerName := val;
      } else if mapto == "severity" {
        severity := val;
      } else if mapto == "source" {
        source := val;
      } else if mapto == "process_id" {
        processId := PyStr(val);
      } else if mapto == "process_name" {
        processName := val;
      } else if mapto == "thread_id" {
        threadId := PyStr(val);
      } else if mapto == "thread_name" {
        threadName := val;
      } else if mapto == "message" {
        message := val;
      }
    }

    /** `_decode_log_entry(msg, format)`. */
    method DecodeLogEntry(msg: string, format: PyValue) returns (outcome: Outcome<DecodeError>)
      requires DecodeModelled(tokenMap, format)
      modifies this
      ensures tokenMap == old(tokenMap)
      ensures outcome.Pass? <==> Decode(tokenMap, old(Properties()), msg, format).Ok?
      ensures outcome.Pass? ==> Properties() == Decode(tokenMap, old(Properties()), msg, format).value
      ensures outcome.Fail? ==> outcome.error == Decode(tokenMap, old(Properties()), msg, format).error
    {
      if !Truthy(format) {
        return Fail(FormatEmpty);
      }
      if !format.PyStr? {
        return Fail(FormatNotString);
      }
      var compiled := CompilePattern(tokenMap, format.s);
      if compiled.Err? {
        return Fail(compiled.error);
      }
      var pattern := Parse(compiled.value).value;
      if !Distinct(GroupNames(pattern)) {
        return Fail(GroupRedefined);
      }
      outcome := ApplyMatch(msg, Match(pattern, msg));
    }

    /** The end of `_decode_log_entry`: the groups of a match applied, then
        the message set. */
    method ApplyMatch(msg: string, found: Option<seq<Capture>>) returns (outcome: Outcome<DecodeError>)
      modifies this
      ensures tokenMap == old(tokenMap)
      ensures outcome.Pass? <==> Conclude(tokenMap, old(Properties()), msg, found).Ok?
      ensures outcome.Pass? ==> Properties() == Conclude(tokenMap, old(Properties()), msg, found).value
      ensures outcome.Fail? ==> outcome.error == Conclude(tokenMap, old(Properties()), msg, found).error
    {
      if found.None? {
        outcome := ApplyNoMatch(msg);
      } else {
        outcome := ApplyMatchGroups(msg, found.value);
      }
    }

    /** Nothing matched: the whole line, stripped, is the message. */
    method ApplyNoMatch(msg: string) returns (outcome: Outcome<DecodeError>)
      modifies this
      ensures tokenMap == old(tokenMap)
      ensures outcome.Pass? && Properties() == old(Properties()).(message := Strip(msg))
    {
      message := Strip(msg);
      return Pass;
    }

    /** A match: its groups applied, then what is left of the line, stripped,
        is the message. */
    method ApplyMatchGroups(msg: string, caps: seq<Capture>) returns (outcome: Outcome<DecodeError>)
      modifies this
      ensures tokenMap == old(tokenMap)
      ensures outcome.Pass? <==> Conclude(tokenMap, old(Properties()), msg, Some(caps)).Ok?
      ensures outcome.Pass? ==> Properties() == Conclude(tokenMap, old(Properties()), msg, Some(caps)).value
      ensures outcome.Fail? ==> outcome.error == Conclude(tokenMap, old(Properties()), msg, Some(caps)).error
    {
      ghost var f0 := Properties();
      var decoded;
      outcome, decoded := ApplyGroups(msg, caps);
      ConcludeSome(tokenMap, f0, msg, caps);
      if outcome.Fail? {
        return;
      }
      ghost var applied := Properties();
      message := Strip(decoded);
      assert Properties() == applied.(message := Strip(decoded));
      return Pass;
    }

    /** The loop of `_decode_log_entry` over the groups of a match: each sets
        the property its token maps to and cuts its delimited text out of the
        line, or raises at the first token without two delimiters. Gives what
        is left of the line. */
    method ApplyGroups(msg: string, caps: seq<Capture>) returns (outcome: Outcome<DecodeError>, decoded: string)
      modifies this
      ensures tokenMap == old(tokenMap)
      ensures outcome.Pass? <==> ApplyCaptures(tokenMap, old(Properties()), msg, caps).Ok?
      ensures outcome.Pass? ==> (Properties(), decoded) == ApplyCaptures(tokenMap, old(Properties()), msg, caps).value
      ensures outcome.Fail? ==> outcome.error == ApplyCaptures(tokenMap, old(Properties()), msg, caps).error
    {
      decoded := msg;
      ghost var f0 := old(Properties());
      var k := 0;
      while k < |caps|
        invariant 0 <= k <= |caps|
        invariant tokenMap == old(tokenMap)
        invariant ApplyCaptures(tokenMap, Properties(), decoded, caps[k..]) == ApplyCaptures(tokenMap, f0, msg, caps)
      {
        var key, val := caps[k].name, caps[k].value;
        var mapto, delims;
        if key in tokenMap.values {
          mapto, delims := tokenMap.values[key].mapto, tokenMap.values[key].delimiters;
        } else {
          // The source takes None and []: nothing is set and the check below fails.
          mapto, delims := "", [];
        }
        assert caps[k..][0] == caps[k] && caps[k..][1..] == caps[k + 1..];
        ApplyCapturesStep(tokenMap, Properties(), decoded, caps[k..]);
        if mapto != [] {
          SetAttribute(mapto, val);
        }
        if |delims| < 2 {
          return Fail(DelimitersInvalid(key)), decoded;
        }
        decoded := ReplaceAll(decoded, delims[0] + val + delims[1], "");
        k := k + 1;
      }
      assert caps[k..] == [];
      return Pass, decoded;
    }
  }

  /** One pass of `_merge_token_map`'s loop: the entry for `key`, checked. */
  method MergeOne(key: string, raw: RawEntry) returns (r: Result<TokenEntry, MergeError>)
    ensures r == MergeEntry(key, raw)
  {
    if raw.RawNotDict? {
      return Err(EntryNotDict(key));
    }
    var entry := BuildEntry(key, raw.attrs);
    if !entry[MAPTO].PyStr? {
      return Err(MaptoNotString(key));
    }
    if !entry[DELIMITERS].PyList? {
      return Err(DelimitersNotList(key));
    }
    return Ok(TokenEntry(entry[MAPTO].s, entry[DELIMITERS].shown));
  }

  /** The first half of `_decode_log_entry`: every placeholder of a token
      in the map replaced by its group, in the map's order, then the message
      placeholder deleted. */
  method CompilePattern(tm: TokenMap, format: string) returns (r: Result<string, DecodeError>)
    ensures r == CompileFormat(tm, format)
  {
    var reFormat := format;
    var i := 0;
    while i < |tm.keys|
      invariant 0 <= i <= |tm.keys|
      invariant CompileFrom(tm, format, i) == Ok(reFormat)
    {
      var step := CompileToken(tm, format, i, reFormat);
      if step.Err? {
        return step;
      }
      reFormat := step.value;
      i := i + 1;
    }
    assert CompileFrom(tm, format, |tm.keys|) == Ok(reFormat);
    reFormat := ReplaceAll(reFormat, MESSAGE_PLACEHOLDER, "");
    return Ok(reFormat);
  }

  /** One pass of the loop of `CompilePattern`: the placeholder of the `i`-th
      token replaced by its group, with the delimiters `re` treats specially
      escaped, or the error for a token without two delimiters. */
  method CompileToken(tm: TokenMap, ghost format: string, i: nat, reFormat: string)
    returns (r: Result<string, DecodeError>)
    requires i < |tm.keys| && CompileFrom(tm, format, i) == Ok(reFormat)
    ensures r.Err? ==> r == CompileFormat(tm, format)
    ensures r.Ok? ==> CompileFrom(tm, format, i + 1) == r
  {
    var attr := tm.keys[i];
    var delimiters := tm.values[attr].delimiters;
    if |delimiters| < 2 {
      CompileStopsAt(tm, format, i, reFormat);
      return Err(DelimitersInvalid(attr));
    }
    var formatToken, regexp := TokenPatterns(attr, delimiters[0], delimiters[1]);
    CompileFromNext(tm, format, i, reFormat);
    return Ok(ReplaceAll(reFormat, formatToken, regexp));
  }

  lemma GroupPatternText(token: string, open: string, close: string)
    ensures Placeholder(token, open, close) == open + "%(" + token + ")" + TokenType(token) + close
    ensures GroupPattern(token, open, close) == Escape(open) + "(?P<" + token + ">.*)" + Escape(close)
  {
  }

  /** A token without two delimiters ends the compile with its error. */
  lemma CompileStopsAt(tm: TokenMap, format: string, i: nat, text: string)
    requires i < |tm.keys| && CompileFrom(tm, format, i) == Ok(text)
    requires |EntryAt(tm, i).delimiters| < 2
    ensures CompileFormat(tm, format) == Err(DelimitersInvalid(tm.keys[i]))
  {
    CompileFromShape(tm, format, i + 1);
    CompileFromStops(tm, format, i + 1, |tm.keys|);
  }

  /** The placeholder text of a token and the named group that replaces it,
      with a delimiter that `re` treats specially escaped by a backslash. */
  method TokenPatterns(attr: string, open: string, close: string) returns (formatToken: string, regexp: string)
    ensures formatToken == Placeholder(attr, open, close)
    ensures regexp == GroupPattern(attr, open, close)
  {
    var startDelimiter, endDelimiter := open, close;
    formatToken := startDelimiter + "%(" + attr + ")" + TokenType(attr) + endDelimiter;
    if startDelimiter in DELIMITERS_TO_ESCAPE {
      startDelimiter := "\\" + startDelimiter;
    }
    if endDelimiter in DELIMITERS_TO_ESCAPE {
      endDelimiter := "\\" + endDelimiter;
    }
    regexp := startDelimiter + "(?P<" + attr + ">.*)" + endDelimiter;
    GroupPatternText(attr, open, close);
  }

  /** `CompileFrom` one key further on, from a prefix that compiled. */
  lemma CompileFromNext(tm: TokenMap, format: string, n: nat, text: string)
    requires n < |tm.keys| && CompileFrom(tm, format, n) == Ok(text)
    requires |EntryAt(tm, n).delimiters| >= 2
    ensures var d := EntryAt(tm, n).delimiters;
            CompileFrom(tm, format, n + 1) ==
            Ok(ReplaceAll(text, Placeholder(tm.keys[n], d[0], d[1]), GroupPattern(tm.keys[n], d[0], d[1])))
  {
  }

  /** `ApplyCaptures` one group further on. */
  lemma ApplyCapturesStep(tm: TokenMap, f: Fields, line: string, caps: seq<Capture>)
    requires caps != []
    ensures !HasDelimiters(tm, caps[0].name) ==> ApplyCaptures(tm, f, line, caps) == Err(DelimitersInvalid(caps[0].name))
    ensures HasDelimiters(tm, caps[0].name) ==>
              var e := tm.values[caps[0].name];
              ApplyCaptures(tm, f, line, caps) ==
              ApplyCaptures(tm, SetField(f, e.mapto, caps[0].value),
                            ReplaceAll(line, e.delimiters[0] + caps[0].value + e.delimiters[1], ""), caps[1..])
  {
  }

  /** The entry `_merge_token_map` builds for `key` before checking it:
      each attribute taken from the override, else from the default map,
      else from the fallbacks. */
  method BuildEntry(key: string, given: map<string, PyValue>) returns (entry: map<string, PyValue>)
    ensures entry == map[MAPTO := ResolveAttr(key, given, MAPTO), DELIMITERS := ResolveAttr(key, given, DELIMITERS)]
    ensures MergeEntry(key, RawDict(given)) == CheckEntry(key, entry)
  {
    entry := map[];
    var j := 0;
    while j < |ENTRY_ATTRIBUTES|
      invariant 0 <= j <= |ENTRY_ATTRIBUTES|
      invariant forall a :: a in entry <==> a in ENTRY_ATTRIBUTES[..j]
      invariant forall a :: a in entry ==> entry[a] == ResolveAttr(key, given, a)
    {
      var attr := ENTRY_ATTRIBUTES[j];
      if attr in given {
        entry := entry[attr := given[attr]];
      } else {
        var defaultEntry := DefaultAttrs(key);
        if attr in defaultEntry {
          entry := entry[attr := defaultEntry[attr]];
        } else if attr == MAPTO {
          entry := entry[attr := FALLBACK_MAPTO];
        } else {
          // attr is "delimiters"
          entry := entry[attr := FALLBACK_DELIMITERS];
        }
      }
      assert ENTRY_ATTRIBUTES[..j + 1] == ENTRY_ATTRIBUTES[..j] + [attr];
      j := j + 1;
    }
    assert ENTRY_ATTRIBUTES[..j] == [MAPTO, DELIMITERS];
    ResolvedEntry(key, given, entry);
  }

  /** A map holding exactly the two attributes, each resolved, is the built entry. */
  lemma ResolvedEntry(key: string, given: map<string, PyValue>, entry: map<string, PyValue>)
    requires forall a :: a in entry <==> a in [MAPTO, DELIMITERS]
    requires forall a :: a in entry ==> entry[a] == ResolveAttr(key, given, a)
    ensures entry == map[MAPTO := ResolveAttr(key, given, MAPTO), DELIMITERS := ResolveAttr(key, given, DELIMITERS)]
  {
    var built := map[MAPTO := ResolveAttr(key, given, MAPTO), DELIMITERS := ResolveAttr(key, given, DELIMITERS)];
    assert entry.Keys == built.Keys;
  }

  /** `LogEntry(msg, format, token_map)`: a new entry, or the error the
      constructor raises. */
  method NewLogEntry(msg: string, format: PyValue, overrides: Overrides) returns (r: Result<LogEntry, EntryError>)
    requires ConstructModelled(format, overrides)
    ensures r.Ok? <==> Construct(msg, format, overrides).Ok?
    ensures r.Ok? ==> fresh(r.value)
    ensures r.Ok? ==> r.value.tokenMap == Construct(msg, format, overrides).value.0
    ensures r.Ok? ==> r.value.Properties() == Construct(msg, format, overrides).value.1
    ensures r.Err? ==> r.error == Construct(msg, format, overrides).error
  {
    var entry := new LogEntry.Blank();
    var merged := entry.MergeTokenMap(OverridesDict(DefaultTokenMap()));
    DefaultsMergeCleanly();
    assert merged.Pass? && entry.tokenMap == DefaultTokens();
    merged := entry.MergeTokenMap(overrides);
    if merged.Fail? {
      return Err(MergeFailed(merged.error));
    }
    var decoded := entry.DecodeLogEntry(msg, format);
    if decoded.Fail? {
      return Err(DecodeFailed(decoded.error));
    }
    return Ok(entry);
  }
}
