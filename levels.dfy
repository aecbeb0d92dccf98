/**
  The argument checks of the logging-setup layer: the severity-name validator,
  the severity check of `set_log_level`, and the argument checks of the
  time-rotated file handler. The loggers and handlers themselves are not
  modelled.
 */
module Levels {
  import opened Wrappers
  import opened PyValues
  import opened PyText

  /** The severity vocabulary: the names Python's logging module knows. */
  const VALID_LOG_LEVELS: seq<string> :=
    ["CRITICAL", "FATAL", "ERROR", "WARN", "WARNING", "INFO", "DEBUG", "NOTSET"]

  /** `a` and `b` spell the same word up to case: each character of one has
      the same upper case as the character of the other at its place. */
  predicate EqualsIgnoringCase(a: string, b: string) {
    |a| == |b| && forall i :: 0 <= i < |a| ==> UpperChar(a[i]) == UpperChar(b[i])
  }

  /** Every character is an upper-case ASCII letter. */
  predicate AllUpper(s: string) {
    forall i :: 0 <= i < |s| ==> 'A' <= s[i] <= 'Z'
  }

  lemma VocabularyIsUpperCase()
    ensures forall n :: n in VALID_LOG_LEVELS ==> AllUpper(n) && Upper(n) == n
  {
    forall n | n in VALID_LOG_LEVELS
      ensures AllUpper(n) && Upper(n) == n
    {
      assert AllUpper(n);
      assert forall i :: 0 <= i < |n| ==> UpperChar(n[i]) == n[i];
    }
  }

  /** `is_valid_log_level_string(level)`: false for anything that is not a
      string, otherwise whether the upper-cased name is in the vocabulary.
      Equivalently: a string that names a severity, ignoring case. */
  function IsValidLogLevelString(level: PyValue): (r: bool)
    ensures r <==> level.PyStr? &&
                   exists n :: n in VALID_LOG_LEVELS && EqualsIgnoringCase(level.s, n)
  {
    VocabularyIsUpperCase();
    if !level.PyStr? then false
    else
      var up := Upper(level.s);
      assert forall n :: n in VALID_LOG_LEVELS && EqualsIgnoringCase(level.s, n) ==> up == n;
      assert up in VALID_LOG_LEVELS ==> EqualsIgnoringCase(level.s, up);
      up in VALID_LOG_LEVELS
  }

  /** Validation looks only at the upper-cased string: two spellings that
      differ only in case are both accepted or both rejected. */
  lemma {:induction false} CaseInsensitive(a: string, b: string)
    requires EqualsIgnoringCase(a, b)
    ensures IsValidLogLevelString(PyStr(a)) == IsValidLogLevelString(PyStr(b))
  {
    assert Upper(a) == Upper(b);
  }

  function LowerChar(c: char): char {
    if 'A' <= c <= 'Z' then (c as int + 32) as char else c
  }

  function Lower(s: string): string {
    seq(|s|, i requires 0 <= i < |s| => LowerChar(s[i]))
  }

  /** Every name of the vocabulary is accepted, in upper and in lower case. */
  lemma VocabularyAccepted(n: string)
    requires n in VALID_LOG_LEVELS
    ensures IsValidLogLevelString(PyStr(n))
    ensures IsValidLogLevelString(PyStr(Lower(n)))
  {
    VocabularyIsUpperCase();
    assert EqualsIgnoringCase(n, n);
    assert EqualsIgnoringCase(Lower(n), n);
  }

  /** Python upper-cases the dotless `ı` to `I`, so "ınfo" and "crıtıcal"
      name severities. */
  lemma DotlessSpellingsAccepted()
    ensures IsValidLogLevelString(PyStr([DOTLESS_I] + "nfo"))
    ensures IsValidLogLevelString(PyStr("cr" + [DOTLESS_I] + "t" + [DOTLESS_I] + "cal"))
  {
    VocabularyIsUpperCase();
    assert EqualsIgnoringCase([DOTLESS_I] + "nfo", "INFO");
    assert EqualsIgnoringCase("cr" + [DOTLESS_I] + "t" + [DOTLESS_I] + "cal", "CRITICAL");
  }

  /** Python upper-cases the long `ſ` to `S`, so "notſet" sets the level
      `NOTSET`. */
  lemma LongSSpellingAccepted()
    ensures SetLogLevel(PyStr("not" + [LONG_S] + "et")) == Ok("NOTSET")
  {
    VocabularyIsUpperCase();
    var up := Upper("not" + [LONG_S] + "et");
    assert up == "NOTSET";
  }

  /** The empty string (the default argument), "no level" and every
      non-string are rejected, and validation never raises. */
  lemma InvalidNamesRejected(v: PyValue)
    requires !v.PyStr?
    ensures !IsValidLogLevelString(PyStr(""))
    ensures !IsValidLogLevelString(PyStr("no level"))
    ensures !IsValidLogLevelString(v)
  {
    VocabularyIsUpperCase();
    var up := Upper("no level");
    assert up[0] == 'N' && up[1] == 'O' && |up| == 8;
  }

  datatype LevelError = InvalidLevel(level: PyValue)

  /** The check at the start of `set_log_level`: a `ValueError` exactly when
      the validator rejects the level; otherwise the upper-cased name handed
      to the logger, which is one of the vocabulary. */
  function SetLogLevel(level: PyValue): (r: Result<string, LevelError>)
    ensures r.Err? <==> !IsValidLogLevelString(level)
    ensures r.Ok? ==> level.PyStr? && r.value in VALID_LOG_LEVELS
                      && EqualsIgnoringCase(level.s, r.value)
  {
    if !IsValidLogLevelString(level) then Err(InvalidLevel(level))
    else
      VocabularyIsUpperCase();
      var up := Upper(level.s);
      assert EqualsIgnoringCase(level.s, up);
      Ok(up)
  }

  // ---------------------------------------------------------------------
  // handler_to_timed_rotating_file argument checks
  // ---------------------------------------------------------------------

  const VALID_WHEN: seq<string> := ["W0", "W1", "W2", "W3", "W4", "W5", "W6"]
  const DEFAULT_TIMED_ROTATING_FILE_WHEN: string := "W6"
  const DEFAULT_TIMED_ROTATING_FILE_COPIES: int := 5

  datatype HandlerError =
    | FilenameEmpty
    | FilenameNotString
    | WhenInvalid
    | AtTimeInvalid
    | CopiesNotInteger
    | CopiesNegative

  /** A weekday rotation code: `W` followed by a digit from 0 (Monday) to 6. */
  predicate IsWeekdayCode(s: string) {
    |s| == 2 && s[0] == 'W' && '0' <= s[1] <= '6'
  }

  /** The assertions of `handler_to_timed_rotating_file`, in source order;
      `atTimeIsTime` says whether `at_time` is a `datetime.time`. The call
      goes ahead exactly when the file name is a non-empty string, `when` is
      a weekday code, `at_time` is a time and `copies` is an integer >= 0. */
  function CheckTimedRotatingArgs(filename: PyValue, when: PyValue, atTimeIsTime: bool,
                                  copies: PyValue): (r: Outcome<HandlerError>)
    ensures r.Pass? <==> && filename.PyStr? && filename.s != []
                         && when.PyStr? && IsWeekdayCode(when.s)
                         && atTimeIsTime
                         && IsInt(copies) && IntValue(copies) >= 0
    ensures r == Fail(WhenInvalid) ==> Truthy(filename) && filename.PyStr?
  {
    assert forall w :: w in VALID_WHEN <==> IsWeekdayCode(w) by {
      forall w | IsWeekdayCode(w) ensures w in VALID_WHEN {
        assert w == ['W', w[1]];
      }
    }
    if !Truthy(filename) then Fail(FilenameEmpty)
    else if !filename.PyStr? then Fail(FilenameNotString)
    else if !(when.PyStr? && when.s in VALID_WHEN) then Fail(WhenInvalid)
    else if !atTimeIsTime then Fail(AtTimeInvalid)
    else if !IsInt(copies) then Fail(CopiesNotInteger)
    else if IntValue(copies) < 0 then Fail(CopiesNegative)
    else Pass
  }

  /** The handler's own defaults pass the checks, and `True` counts as an
      integer copy count because `bool` is a subclass of `int`. */
  lemma TimedRotatingDefaultsAccepted(filename: string)
    requires filename != []
    ensures CheckTimedRotatingArgs(PyStr(filename), PyStr(DEFAULT_TIMED_ROTATING_FILE_WHEN), true,
                                   PyInt(DEFAULT_TIMED_ROTATING_FILE_COPIES)) == Pass
    ensures CheckTimedRotatingArgs(PyStr(filename), PyStr("W0"), true, PyBool(true)) == Pass
    ensures CheckTimedRotatingArgs(PyStr(filename), PyStr("W7"), true, PyInt(1)) == Fail(WhenInvalid)
    ensures CheckTimedRotatingArgs(PyStr(filename), PyStr("W0"), true, PyInt(-1)) == Fail(CopiesNegative)
  {
    assert IsWeekdayCode("W6") && IsWeekdayCode("W0") && !IsWeekdayCode("W7");
  }
}
