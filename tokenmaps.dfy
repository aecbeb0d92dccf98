/**
  The token map of the log-line decoder: for each logging-format token, the
  `LogEntry` field it fills (`mapto`, empty for "consume and discard") and
  the delimiters that surround its value in a rendered line; the built-in
  defaults; and the attribute-by-attribute merge of caller overrides.
 */
module TokenMaps {
  import opened Wrappers
  import opened PyValues
  import opened PyText

  /** One entry of the token map once merged: `mapto` was checked to be a
      string and `delimiters` a list, held as the text of its items (its
      length is checked only when decoding). */
  datatype TokenEntry = TokenEntry(mapto: string, delimiters: seq<string>)

  type TokenMap = Dict<TokenEntry>

  /** An entry of a caller-supplied override map, before any check: a dict of
      attributes, or something that is not a dict. */
  datatype RawEntry = RawDict(attrs: map<string, PyValue>) | RawNotDict(value: PyValue)

  /** The `token_map` argument: a dict of entries, or something that is not a dict. */
  datatype Overrides = OverridesDict(entries: Dict<RawEntry>) | OverridesNotDict(value: PyValue)

  /** The assertions `_merge_token_map` raises. */
  datatype MergeError =
    | MapNotDict
    | EntryNotDict(key: string)
    | MaptoNotString(key: string)
    | DelimitersNotList(key: string)

  const MAPTO: string := "mapto"
  const DELIMITERS: string := "delimiters"

  /** The attributes a merged entry is built from, in the order they are resolved. */
  const ENTRY_ATTRIBUTES: seq<string> := [MAPTO, DELIMITERS]

  /** The last-resort values when neither the override nor the default map gives one. */
  const FALLBACK_MAPTO: PyValue := PyStr("")
  const FALLBACK_DELIMITERS: PyValue := PyList(["[", "]"])

  function Fallback(attr: string): PyValue {
    if attr == MAPTO then FALLBACK_MAPTO else FALLBACK_DELIMITERS
  }

  // ---------------------------------------------------------------------
  // Constant tables
  // ---------------------------------------------------------------------

  const DEFAULT_TOKEN_KEYS: seq<string> := [
    "asctime", "created", "filename", "funcName", "levelname", "levelno",
    "lineno", "module", "msecs", "name", "pathname", "process",
    "processName", "relativeCreated", "thread", "threadName", "taskName"
  ]

  /** A number that tells the default token names apart: length and first two letters. */
  function KeySignature(key: string): int
    requires |key| >= 2
  {
    |key| * 1000000 + (key[0] as int) * 1000 + key[1] as int
  }

  lemma DefaultKeysDistinct()
    ensures forall i, j :: 0 <= i < j < |DEFAULT_TOKEN_KEYS| ==> DEFAULT_TOKEN_KEYS[i] != DEFAULT_TOKEN_KEYS[j]
  {
    var signatures := seq(|DEFAULT_TOKEN_KEYS|, i requires 0 <= i < |DEFAULT_TOKEN_KEYS| =>
                            KeySignature(DEFAULT_TOKEN_KEYS[i]));
    assert signatures == [
      7097115, 7099114, 8102105, 8102117, 9108101, 7108101, 6108105, 6109111, 5109115,
      4110097, 8112097, 7112114, 11112114, 15114101, 6116104, 10116104, 8116097];
  }

  /** The default entries are given for exactly the default keys. */
  lemma DefaultKeysCover()
    ensures DEFAULT_TOKEN_ENTRIES.Keys == set k | k in DEFAULT_TOKEN_KEYS
  {
    assert forall k :: k in DEFAULT_TOKEN_KEYS ==> k in DEFAULT_TOKEN_ENTRIES;
  }

  /** The default field and delimiters of each token, as merged entries.
      Tokens mapped to "" are consumed but not exposed. */
  const DEFAULT_TOKEN_ENTRIES: map<string, TokenEntry> := map[
    "asctime" := TokenEntry("time", ["", ":"]),
    "created" := TokenEntry("", ["[", "]"]),
    "filename" := TokenEntry("", ["[", "]"]),
    "funcName" := TokenEntry("", ["[", "]"]),
    "levelname" := TokenEntry("severity", ["[", "]"]),
    "levelno" := TokenEntry("", ["[", "]"]),
    "lineno" := TokenEntry("", ["[", "]"]),
    "module" := TokenEntry("", ["[", "]"]),
    "msecs" := TokenEntry("", ["[", "]"]),
    "name" := TokenEntry("logger_name", ["[", "]"]),
    "pathname" := TokenEntry("", ["[", "]"]),
    "process" := TokenEntry("process_id", ["[", "]"]),
    "processName" := TokenEntry("process_name", ["[", "]"]),
    "relativeCreated" := TokenEntry("", ["[", "]"]),
    "thread" := TokenEntry("thread_id", ["[", "]"]),
    "threadName" := TokenEntry("thread_name", ["[", "]"]),
    "taskName" := TokenEntry("", ["[", "]"])
  ]

  /** The default token map, keys in their source order, as merged entries. */
  function DefaultTokens(): Dict<TokenEntry> {
    DefaultKeysDistinct();
    DefaultKeysCover();
    DictRep(DEFAULT_TOKEN_KEYS, DEFAULT_TOKEN_ENTRIES)
  }

  /** A merged entry written back as the dict-of-attributes it came from. */
  function AsRaw(e: TokenEntry): RawEntry {
    RawDict(map[MAPTO := PyStr(e.mapto), DELIMITERS := PyList(e.delimiters)])
  }

  /** `DEFAULT_TOKEN_MAP`, as the dict of dicts the constructor merges first. */
  function DefaultTokenMap(): Dict<RawEntry> {
    var d := DefaultTokens();
    DictRep(d.keys, map k | k in d.values :: AsRaw(d.values[k]))
  }

  /** The printf-style type letter of each token's placeholder. */
  const TOKEN_TYPING: map<string, string> := map[
    "asctime" := "s", "created" := "f", "filename" := "s", "funcName" := "s",
    "levelname" := "s", "levelno" := "s", "lineno" := "d", "module" := "s",
    "msecs" := "d", "name" := "s", "pathname" := "s", "process" := "d",
    "processName" := "s", "relativeCreated" := "d", "thread" := "d",
    "threadName" := "s", "taskName" := "s"
  ]

  /** `TOKEN_TYPING.get(token, "s")`. */
  function TokenType(token: string): string {
    if token in TOKEN_TYPING then TOKEN_TYPING[token] else "s"
  }

  /** Delimiters that are backslash-escaped when put into the pattern. */
  const DELIMITERS_TO_ESCAPE: seq<string> := ["[", "]", "(", ")"]

  // ---------------------------------------------------------------------
  // Merge
  // ---------------------------------------------------------------------

  /** `DEFAULT_TOKEN_MAP.get(key, {})`. */
  function DefaultAttrs(key: string): map<string, PyValue> {
    if key in DefaultTokenMap().values then
      match DefaultTokenMap().values[key]
      case RawDict(attrs) => attrs
      case RawNotDict(_) => map[]
    else map[]
  }

  /** The value one attribute of a merged entry takes: the override's own,
      else the default map's for that token, else the fallback. */
  function ResolveAttr(key: string, given: map<string, PyValue>, attr: string): PyValue {
    if attr in given then given[attr]
    else if attr in DefaultAttrs(key) then DefaultAttrs(key)[attr]
    else Fallback(attr)
  }

  /** The checks made on a built entry before it is stored. */
  function CheckEntry(key: string, built: map<string, PyValue>): Result<TokenEntry, MergeError>
    requires MAPTO in built && DELIMITERS in built
  {
    if !built[MAPTO].PyStr? then Err(MaptoNotString(key))
    else if !built[DELIMITERS].PyList? then Err(DelimitersNotList(key))
    else Ok(TokenEntry(built[MAPTO].s, built[DELIMITERS].shown))
  }

  /** The entry `_merge_token_map` stores for one key of the overrides. */
  function MergeEntry(key: string, raw: RawEntry): Result<TokenEntry, MergeError> {
    match raw
    case RawNotDict(_) => Err(EntryNotDict(key))
    case RawDict(given) =>
      CheckEntry(key, map[MAPTO := ResolveAttr(key, given, MAPTO),
                          DELIMITERS := ResolveAttr(key, given, DELIMITERS)])
  }

  /** How one entry of the overrides is merged; `MergeEntry` in the source.
      The fold below is stated for any such function. */
  type EntryMerge = (string, RawEntry) -> Result<TokenEntry, MergeError>

  /** The result of merging the first `n` entries of `d` into `tm`, in the
      dict's order, each with `merge`: the first entry that fails its checks
      is the error. */
  function MergePrefix(tm: TokenMap, d: Dict<RawEntry>, n: nat, merge: EntryMerge): Result<TokenMap, MergeError>
    requires n <= |d.keys|
  {
    if n == 0 then Ok(tm)
    else
      match MergePrefix(tm, d, n - 1, merge)
      case Err(e) => Err(e)
      case Ok(t) =>
        var key := d.keys[n - 1];
        match merge(key, d.values[key])
        case Err(e) => Err(e)
        case Ok(entry) => Ok(Put(t, key, entry))
  }

  /** `_merge_token_map(token_map)` applied to the map `tm`. */
  function Merge(tm: TokenMap, overrides: Overrides): Result<TokenMap, MergeError> {
    match overrides
    case OverridesNotDict(_) => Err(MapNotDict)
    case OverridesDict(d) => MergePrefix(tm, d, |d.keys|, MergeEntry)
  }

  /** The keys of `added` that are not yet in `existing`, in order. */
  function NewKeys<V>(existing: map<string, V>, added: seq<string>): seq<string> {
    if added == [] then []
    else (if added[0] in existing then [] else [added[0]]) + NewKeys(existing, added[1..])
  }

  // ---------------------------------------------------------------------
  // Properties of the merge
  // ---------------------------------------------------------------------

  /** The `mapto` the default table gives a token, `""` for a token it does not know. */
  function DefaultMapto(key: string): string {
    if key in DEFAULT_TOKEN_ENTRIES then DEFAULT_TOKEN_ENTRIES[key].mapto else ""
  }

  /** The delimiters the default table gives a token, `["[", "]"]` for a token it does not know. */
  function DefaultDelimiters(key: string): seq<string> {
    if key in DEFAULT_TOKEN_ENTRIES then DEFAULT_TOKEN_ENTRIES[key].delimiters else ["[", "]"]
  }

  /** Each attribute of a merged entry is the override's own value when it
      has one, else the default table's value for that token, else the
      fallback; the entry is refused exactly when the override supplies a
      `mapto` that is not a string or `delimiters` that are not a list (the
      defaults and fallbacks always pass). */
  lemma MergeEntryResolution(key: string, given: map<string, PyValue>)
    ensures MergeEntry(key, RawDict(given)) ==
      if MAPTO in given && !given[MAPTO].PyStr? then Err(MaptoNotString(key))
      else if DELIMITERS in given && !given[DELIMITERS].PyList? then Err(DelimitersNotList(key))
      else Ok(TokenEntry(
        if MAPTO in given then given[MAPTO].s else DefaultMapto(key),
        if DELIMITERS in given then given[DELIMITERS].shown else DefaultDelimiters(key)))
  {
    var dm := DefaultTokenMap();
    if key in DEFAULT_TOKEN_ENTRIES {
      assert key in dm.values;
      assert DefaultAttrs(key) == map[MAPTO := PyStr(DefaultMapto(key)),
                                      DELIMITERS := PyList(DefaultDelimiters(key))];
    } else {
      assert key !in dm.values;
    }
  }

  /** A merged entry never depends on the map it is merged into. */
  lemma {:induction false} NewKeysIgnores<V>(existing: map<string, V>, k: string, v: V, added: seq<string>)
    requires k !in added
    ensures NewKeys(existing[k := v], added) == NewKeys(existing, added)
    decreases |added|
  {
    if added != [] {
      NewKeysIgnores(existing, k, v, added[1..]);
    }
  }

  lemma {:induction false} NewKeysAppend<V>(existing: map<string, V>, added: seq<string>, key: string)
    ensures NewKeys(existing, added + [key]) ==
            NewKeys(existing, added) + (if key in existing then [] else [key])
    decreases |added|
  {
    if added == [] {
      assert [] + [key] == [key];
    } else {
      assert (added + [key])[1..] == added[1..] + [key];
      NewKeysAppend(existing, added[1..], key);
    }
  }

  /** `r` holds the keys of `base` in their order followed by the keys of
      `seen` that are new to it, and no other key. */
  ghost predicate KeysAfter<V, W>(base: Dict<W>, seen: seq<string>, r: Dict<V>) {
    && r.keys == base.keys + NewKeys(base.values, seen)
    && forall k :: k in r.values <==> k in base.values || k in seen
  }

  /** Putting a key not seen before appends it exactly when it is new to the base. */
  lemma PutAppend<V, W>(base: Dict<W>, seen: seq<string>, t: Dict<V>, key: string, v: V)
    requires KeysAfter(base, seen, t)
    requires key !in seen
    ensures KeysAfter(base, seen + [key], Put(t, key, v))
  {
    NewKeysAppend(base.values, seen, key);
    var added := if key in base.values then [] else [key];
    assert key in t.values <==> key in base.values;
    assert Put(t, key, v).keys == t.keys + added;
    Regroup3(base.keys, NewKeys(base.values, seen), added);
  }

  /** Merging the first `n` override entries succeeds exactly when each of
      them passes its checks; otherwise the error is that of the first entry
      that fails. */
  lemma MergePrefixOutcome(tm: TokenMap, d: Dict<RawEntry>, n: nat, merge: EntryMerge)
    requires n <= |d.keys|
    ensures MergePrefix(tm, d, n, merge).Ok? <==>
            forall j :: 0 <= j < n ==> merge(d.keys[j], d.values[d.keys[j]]).Ok?
    ensures MergePrefix(tm, d, n, merge).Err? ==>
            exists j :: 0 <= j < n && merge(d.keys[j], d.values[d.keys[j]]) == Err(MergePrefix(tm, d, n, merge).error)
                        && forall i :: 0 <= i < j ==> merge(d.keys[i], d.values[d.keys[i]]).Ok?
  {
    MergeOkWhen(tm, d, n, merge);
    if MergePrefix(tm, d, n, merge).Err? {
      MergeErrAt(tm, d, n, merge);
    }
  }

  /** The first `n` overrides all build an entry. */
  ghost predicate AllMerged(d: Dict<RawEntry>, n: nat, merge: EntryMerge)
    requires n <= |d.keys|
  {
    forall j :: 0 <= j < n ==> merge(d.keys[j], d.values[d.keys[j]]).Ok?
  }

  /** How one step of `MergePrefix` can end. */
  lemma MergePrefixShape(tm: TokenMap, d: Dict<RawEntry>, n: nat, merge: EntryMerge)
    requires 0 < n <= |d.keys|
    ensures MergePrefix(tm, d, n, merge).Ok? <==>
            MergePrefix(tm, d, n - 1, merge).Ok? && merge(d.keys[n - 1], d.values[d.keys[n - 1]]).Ok?
    ensures MergePrefix(tm, d, n - 1, merge).Err? ==> MergePrefix(tm, d, n, merge) == MergePrefix(tm, d, n - 1, merge)
    ensures MergePrefix(tm, d, n - 1, merge).Ok? && merge(d.keys[n - 1], d.values[d.keys[n - 1]]).Err? ==>
            MergePrefix(tm, d, n, merge) == Err(merge(d.keys[n - 1], d.values[d.keys[n - 1]]).error)
  {
  }

  lemma AllMergedStep(d: Dict<RawEntry>, n: nat, merge: EntryMerge)
    requires 0 < n <= |d.keys|
    ensures AllMerged(d, n, merge) <==> AllMerged(d, n - 1, merge) && merge(d.keys[n - 1], d.values[d.keys[n - 1]]).Ok?
  {
  }

  /** The first half of `MergePrefixOutcome`. */
  lemma {:induction false} MergeOkWhen(tm: TokenMap, d: Dict<RawEntry>, n: nat, merge: EntryMerge)
    requires n <= |d.keys|
    ensures MergePrefix(tm, d, n, merge).Ok? <==> AllMerged(d, n, merge)
  {
    if n > 0 {
      MergeOkWhen(tm, d, n - 1, merge);
      MergeOkStep(tm, d, n, merge);
      AllMergedStep(d, n, merge);
      ghost var step := merge(d.keys[n - 1], d.values[d.keys[n - 1]]).Ok?;
      assert MergePrefix(tm, d, n, merge).Ok? == (MergePrefix(tm, d, n - 1, merge).Ok? && step);
      assert AllMerged(d, n, merge) == (AllMerged(d, n - 1, merge) && step);
    }
  }

  /** One step of `MergePrefix` succeeds when the steps before it did and its
      own entry merges. */
  lemma MergeOkStep(tm: TokenMap, d: Dict<RawEntry>, n: nat, merge: EntryMerge)
    requires 0 < n <= |d.keys|
    ensures MergePrefix(tm, d, n, merge).Ok? <==>
            MergePrefix(tm, d, n - 1, merge).Ok? && merge(d.keys[n - 1], d.values[d.keys[n - 1]]).Ok?
  {
  }

  /** The second half of `MergePrefixOutcome`. */
  lemma {:induction false} MergeErrAt(tm: TokenMap, d: Dict<RawEntry>, n: nat, merge: EntryMerge)
    requires n <= |d.keys|
    requires MergePrefix(tm, d, n, merge).Err?
    ensures exists j :: 0 <= j < n && merge(d.keys[j], d.values[d.keys[j]]) == Err(MergePrefix(tm, d, n, merge).error)
                        && forall i :: 0 <= i < j ==> merge(d.keys[i], d.values[d.keys[i]]).Ok?
  {
    MergePrefixShape(tm, d, n, merge);
    if MergePrefix(tm, d, n - 1, merge).Err? {
      MergeErrAt(tm, d, n - 1, merge);
    } else {
      MergeErrLast(tm, d, n, merge);
      var j := n - 1;
      assert merge(d.keys[j], d.values[d.keys[j]]) == Err(MergePrefix(tm, d, n, merge).error);
    }
  }

  /** A merge that fails only at its last step fails with that step's error. */
  lemma MergeErrLast(tm: TokenMap, d: Dict<RawEntry>, n: nat, merge: EntryMerge)
    requires 0 < n <= |d.keys|
    requires MergePrefix(tm, d, n - 1, merge).Ok? && MergePrefix(tm, d, n, merge).Err?
    ensures merge(d.keys[n - 1], d.values[d.keys[n - 1]]) == Err(MergePrefix(tm, d, n, merge).error)
    ensures AllMerged(d, n - 1, merge)
  {
    MergePrefixShape(tm, d, n, merge);
    MergeOkWhen(tm, d, n - 1, merge);
  }

  /** `MergePrefix` one entry further on, from a prefix that succeeded. */
  lemma MergePrefixNext(tm: TokenMap, d: Dict<RawEntry>, n: nat, merge: EntryMerge, t: TokenMap)
    requires n < |d.keys|
    requires MergePrefix(tm, d, n, merge) == Ok(t)
    ensures MergePrefix(tm, d, n + 1, merge) ==
            match merge(d.keys[n], d.values[d.keys[n]])
            case Err(e) => Err(e)
            case Ok(entry) => Ok(Put(t, d.keys[n], entry))
  {
  }

  /** Once an entry has failed, the entries after it do not change the error. */
  lemma {:induction false} MergePrefixStops(tm: TokenMap, d: Dict<RawEntry>, m: nat, n: nat, merge: EntryMerge)
    requires m <= n <= |d.keys|
    requires MergePrefix(tm, d, m, merge).Err?
    ensures MergePrefix(tm, d, n, merge) == MergePrefix(tm, d, m, merge)
    decreases n
  {
    if n > m {
      MergePrefixStops(tm, d, m, n - 1, merge);
    }
  }

  /** On success, merging the first `n` override entries loses no key, puts
      the merged entry (replaced as a whole) under every overridden key,
      leaves every other key's entry alone, and appends the new keys in the
      overrides' order. */
  lemma MergePrefixResult(tm: TokenMap, d: Dict<RawEntry>, n: nat, merge: EntryMerge)
    requires n <= |d.keys|
    requires MergePrefix(tm, d, n, merge).Ok?
    ensures KeysAfter(tm, d.keys[..n], MergePrefix(tm, d, n, merge).value)
    ensures ValuesAfter(tm, d, n, merge, MergePrefix(tm, d, n, merge).value)
  {
    MergePrefixKeys(tm, d, n, merge);
    MergePrefixValues(tm, d, n, merge);
  }

  /** The keys part of `MergePrefixResult`. */
  lemma {:induction false} MergePrefixKeys(tm: TokenMap, d: Dict<RawEntry>, n: nat, merge: EntryMerge)
    requires n <= |d.keys|
    requires MergePrefix(tm, d, n, merge).Ok?
    ensures KeysAfter(tm, d.keys[..n], MergePrefix(tm, d, n, merge).value)
  {
    if n == 0 {
      assert d.keys[..0] == [];
    } else {
      MergeUnfold(tm, d, n, merge);
      MergePrefixKeys(tm, d, n - 1, merge);
      MergeStep(tm, d, n, merge);
    }
  }

  /** The values part of `MergePrefixResult`. */
  lemma {:induction false} MergePrefixValues(tm: TokenMap, d: Dict<RawEntry>, n: nat, merge: EntryMerge)
    requires n <= |d.keys|
    requires MergePrefix(tm, d, n, merge).Ok?
    ensures ValuesAfter(tm, d, n, merge, MergePrefix(tm, d, n, merge).value)
  {
    if n > 0 {
      MergeUnfold(tm, d, n, merge);
      MergePrefixValues(tm, d, n - 1, merge);
      MergeValuesTo(tm, d, n, merge);
    }
  }

  /** What the first `n` entries merged with `merge` leave in `r`, as far as values go. */
  ghost predicate ValuesAfter(tm: TokenMap, d: Dict<RawEntry>, n: nat, merge: EntryMerge, r: TokenMap)
    requires n <= |d.keys|
  {
    MergedValues(d, n, merge, r) && KeptValues(tm, d, n, r)
  }

  /** The first `n` overrides' entries are in `r`. */
  ghost predicate MergedValues(d: Dict<RawEntry>, n: nat, merge: EntryMerge, r: TokenMap)
    requires n <= |d.keys|
  {
    forall j :: 0 <= j < n ==>
      merge(d.keys[j], d.values[d.keys[j]]).Ok? &&
      d.keys[j] in r.values && r.values[d.keys[j]] == merge(d.keys[j], d.values[d.keys[j]]).value
  }

  /** Every other entry of `tm` is in `r` as it was. */
  ghost predicate KeptValues(tm: TokenMap, d: Dict<RawEntry>, n: nat, r: TokenMap)
    requires n <= |d.keys|
  {
    forall k :: k in tm.values && k !in d.keys[..n] ==> k in r.values && r.values[k] == tm.values[k]
  }

  /** `ValuesAfter` one entry further on, for the map with that entry put in. */
  lemma MergeValuesStep(tm: TokenMap, d: Dict<RawEntry>, n: nat, merge: EntryMerge, t: TokenMap, e: TokenEntry)
    requires 0 < n <= |d.keys|
    requires merge(d.keys[n - 1], d.values[d.keys[n - 1]]) == Ok(e)
    requires ValuesAfter(tm, d, n - 1, merge, t)
    ensures ValuesAfter(tm, d, n, merge, Put(t, d.keys[n - 1], e))
  {
    FreshKey(d, n - 1);
    MergedStep(d, n, merge, t, e);
    KeptStep(tm, d, n, t, e);
  }

  lemma MergedStep(d: Dict<RawEntry>, n: nat, merge: EntryMerge, t: TokenMap, e: TokenEntry)
    requires 0 < n <= |d.keys| && d.keys[n - 1] !in d.keys[..n - 1]
    requires merge(d.keys[n - 1], d.values[d.keys[n - 1]]) == Ok(e)
    requires MergedValues(d, n - 1, merge, t)
    ensures MergedValues(d, n, merge, Put(t, d.keys[n - 1], e))
  {
    var key := d.keys[n - 1];
    var r := Put(t, key, e);
    assert r.values == t.values[key := e];
    forall j | 0 <= j < n
      ensures merge(d.keys[j], d.values[d.keys[j]]).Ok?
      ensures d.keys[j] in r.values && r.values[d.keys[j]] == merge(d.keys[j], d.values[d.keys[j]]).value
    {
      if j < n - 1 {
        assert d.keys[j] in d.keys[..n - 1];
      }
    }
  }

  lemma KeptStep(tm: TokenMap, d: Dict<RawEntry>, n: nat, t: TokenMap, e: TokenEntry)
    requires 0 < n <= |d.keys| && d.keys[..n] == d.keys[..n - 1] + [d.keys[n - 1]]
    requires KeptValues(tm, d, n - 1, t)
    ensures KeptValues(tm, d, n, Put(t, d.keys[n - 1], e))
  {
    var r := Put(t, d.keys[n - 1], e);
    assert r.values == t.values[d.keys[n - 1] := e];
    forall k | k in tm.values && k !in d.keys[..n] ensures k in r.values && r.values[k] == tm.values[k] {
      assert k !in d.keys[..n - 1] && k != d.keys[n - 1];
    }
  }

  /** The last step of a `MergePrefix` that succeeds. */
  lemma MergeUnfold(tm: TokenMap, d: Dict<RawEntry>, n: nat, merge: EntryMerge)
    requires 0 < n <= |d.keys|
    requires MergePrefix(tm, d, n, merge).Ok?
    ensures MergePrefix(tm, d, n - 1, merge).Ok? && merge(d.keys[n - 1], d.values[d.keys[n - 1]]).Ok?
    ensures MergePrefix(tm, d, n, merge).value ==
            Put(MergePrefix(tm, d, n - 1, merge).value, d.keys[n - 1], merge(d.keys[n - 1], d.values[d.keys[n - 1]]).value)
  {
  }

  /** The keys part of one step of `MergePrefixResult`: the entry at
      position `n - 1` is put in. */
  lemma MergeStep(tm: TokenMap, d: Dict<RawEntry>, n: nat, merge: EntryMerge)
    requires 0 < n <= |d.keys|
    requires MergePrefix(tm, d, n, merge).Ok?
    requires KeysAfter(tm, d.keys[..n - 1], MergePrefix(tm, d, n - 1, merge).value)
    ensures KeysAfter(tm, d.keys[..n], MergePrefix(tm, d, n, merge).value)
  {
    MergeUnfold(tm, d, n, merge);
    FreshKey(d, n - 1);
    PutAppend(tm, d.keys[..n - 1], MergePrefix(tm, d, n - 1, merge).value, d.keys[n - 1],
              merge(d.keys[n - 1], d.values[d.keys[n - 1]]).value);
  }

  /** The values part of one step of `MergePrefixResult`. */
  lemma MergeValuesTo(tm: TokenMap, d: Dict<RawEntry>, n: nat, merge: EntryMerge)
    requires 0 < n <= |d.keys|
    requires MergePrefix(tm, d, n, merge).Ok?
    requires ValuesAfter(tm, d, n - 1, merge, MergePrefix(tm, d, n - 1, merge).value)
    ensures ValuesAfter(tm, d, n, merge, MergePrefix(tm, d, n, merge).value)
  {
    MergeUnfold(tm, d, n, merge);
    MergeValuesStep(tm, d, n, merge, MergePrefix(tm, d, n - 1, merge).value,
                    merge(d.keys[n - 1], d.values[d.keys[n - 1]]).value);
  }

  lemma FreshKey(d: Dict<RawEntry>, n: nat)
    requires n < |d.keys|
    ensures d.keys[..n + 1] == d.keys[..n] + [d.keys[n]]
    ensures d.keys[n] !in d.keys[..n]
  {
    assert d.keys[n] !in d.keys[..n] by {
      forall i | 0 <= i < n ensures d.keys[..n][i] != d.keys[n] {
        assert d.keys[i] != d.keys[n];
      }
    }
  }

  /** `NewKeys` of keys that are all present already is empty. */
  lemma {:induction false} NewKeysPresent<V>(existing: map<string, V>, added: seq<string>)
    requires forall k :: k in added ==> k in existing
    ensures NewKeys(existing, added) == []
    decreases |added|
  {
    if added != [] {
      NewKeysPresent(existing, added[1..]);
    }
  }

  /** `NewKeys` of keys none of which is present yet is all of them. */
  lemma {:induction false} NewKeysAbsent<V>(existing: map<string, V>, added: seq<string>)
    requires forall k :: k in added ==> k !in existing
    ensures NewKeys(existing, added) == added
    decreases |added|
  {
    if added != [] {
      NewKeysAbsent(existing, added[1..]);
      assert added == [added[0]] + added[1..];
    }
  }

  /** `_merge_token_map`: it raises when the overrides are not a dict or when
      one of their entries fails its checks (the first such entry is
      reported); otherwise the new map keeps every key, in order, appends the
      overrides' new keys, holds the merged entry under each overridden key
      and the old entry under every other key. */
  lemma MergeSpec(tm: TokenMap, overrides: Overrides)
    ensures overrides.OverridesNotDict? ==> Merge(tm, overrides) == Err(MapNotDict)
    ensures overrides.OverridesDict? ==>
              var d := overrides.entries;
              && (Merge(tm, overrides).Ok? <==>
                    forall j :: 0 <= j < |d.keys| ==> MergeEntry(d.keys[j], d.values[d.keys[j]]).Ok?)
              && (Merge(tm, overrides).Err? ==>
                    exists j :: 0 <= j < |d.keys| && MergeEntry(d.keys[j], d.values[d.keys[j]]) == Err(Merge(tm, overrides).error)
                                && forall i :: 0 <= i < j ==> MergeEntry(d.keys[i], d.values[d.keys[i]]).Ok?)
              && (Merge(tm, overrides).Ok? ==>
                    && KeysAfter(tm, d.keys, Merge(tm, overrides).value)
                    && ValuesAfter(tm, d, |d.keys|, MergeEntry, Merge(tm, overrides).value))
  {
    if overrides.OverridesDict? {
      var d := overrides.entries;
      MergePrefixOutcome(tm, d, |d.keys|, MergeEntry);
      if Merge(tm, overrides).Ok? {
        MergePrefixResult(tm, d, |d.keys|, MergeEntry);
        assert d.keys[..|d.keys|] == d.keys;
      }
    }
  }

  /** The successful case of `MergeSpec`, for a named result. */
  lemma MergeOk(tm: TokenMap, d: Dict<RawEntry>, r: TokenMap)
    requires Merge(tm, OverridesDict(d)) == Ok(r)
    ensures KeysAfter(tm, d.keys, r) && ValuesAfter(tm, d, |d.keys|, MergeEntry, r)
  {
    MergeSpec(tm, OverridesDict(d));
  }

  /** Merging the same overrides a second time changes nothing. */
  lemma MergeIdempotent(tm: TokenMap, overrides: Overrides)
    requires Merge(tm, overrides).Ok?
    ensures Merge(Merge(tm, overrides).value, overrides) == Merge(tm, overrides)
  {
    var d := overrides.entries;
    var r := Merge(tm, overrides).value;
    MergeSpec(r, overrides);
    MergeOk(tm, d, r);
    var r2 := Merge(r, overrides).value;
    MergeOk(r, d, r2);
    RemergeUnchanged(tm, d, MergeEntry, r, r2);
  }

  lemma RemergeUnchanged(tm: TokenMap, d: Dict<RawEntry>, merge: EntryMerge, r: TokenMap, r2: TokenMap)
    requires ValuesAfter(tm, d, |d.keys|, merge, r)
    requires KeysAfter(r, d.keys, r2) && ValuesAfter(r, d, |d.keys|, merge, r2)
    ensures r2 == r
  {
    forall k | k in d.keys ensures k in r.values {
      var j :| 0 <= j < |d.keys| && d.keys[j] == k;
    }
    PresentKeysKept(r, d.keys, r2);
    RemergeValues(tm, d, merge, r, r2);
  }

  /** The values part of `RemergeUnchanged`. */
  lemma RemergeValues(tm: TokenMap, d: Dict<RawEntry>, merge: EntryMerge, r: TokenMap, r2: TokenMap)
    requires ValuesAfter(tm, d, |d.keys|, merge, r)
    requires ValuesAfter(r, d, |d.keys|, merge, r2)
    requires forall k :: k in r2.values <==> k in r.values || k in d.keys
    ensures r2.values == r.values
  {
    assert d.keys[..|d.keys|] == d.keys;
    forall k | k in r.values ensures k in r2.values && r2.values[k] == r.values[k] {
      if k in d.keys {
        var j :| 0 <= j < |d.keys| && d.keys[j] == k;
      }
    }
    forall k | k in r2.values ensures k in r.values {
      if k in d.keys {
        var j :| 0 <= j < |d.keys| && d.keys[j] == k;
      }
    }
  }

  /** An overridden entry does not depend on the map merged into: missing
      attributes come from the default table, never from the current map. */
  lemma MergeIgnoresCurrentMap(tm1: TokenMap, tm2: TokenMap, overrides: Overrides, key: string)
    requires Merge(tm1, overrides).Ok? && Merge(tm2, overrides).Ok?
    requires key in overrides.entries.keys
    ensures key in Merge(tm1, overrides).value.values && key in Merge(tm2, overrides).value.values
    ensures Merge(tm1, overrides).value.values[key] == Merge(tm2, overrides).value.values[key]
  {
    var d := overrides.entries;
    MergeOk(tm1, d, Merge(tm1, overrides).value);
    MergeOk(tm2, d, Merge(tm2, overrides).value);
    var j :| 0 <= j < |d.keys| && d.keys[j] == key;
  }

  /** Merging `DEFAULT_TOKEN_MAP` into the empty map, as the constructor does
      first, cannot fail and yields the default table in its order. */
  lemma DefaultsMergeCleanly()
    ensures Merge(EmptyDict(), OverridesDict(DefaultTokenMap())) == Ok(DefaultTokens())
  {
    var d := DefaultTokenMap();
    DefaultEntriesMerge();
    assert forall k :: k in DEFAULT_TOKEN_ENTRIES ==> k in d.keys;
    FreshMerge(d, MergeEntry, DEFAULT_TOKEN_ENTRIES);
  }

  /** Every override merged with `merge` gives the entry `expected` holds for it. */
  ghost predicate MergesTo(d: Dict<RawEntry>, merge: EntryMerge, expected: map<string, TokenEntry>) {
    forall j :: 0 <= j < |d.keys| ==>
      d.keys[j] in expected && merge(d.keys[j], d.values[d.keys[j]]) == Ok(expected[d.keys[j]])
  }

  /** Merging into the empty map overrides that each build the expected
      entry gives exactly those entries, in the overrides' order. */
  lemma FreshMerge(d: Dict<RawEntry>, merge: EntryMerge, expected: map<string, TokenEntry>)
    requires MergesTo(d, merge, expected)
    requires forall k :: k in expected ==> k in d.keys
    ensures MergePrefix(EmptyDict(), d, |d.keys|, merge) == Ok(DictRep(d.keys, expected))
  {
    var tm: TokenMap := EmptyDict();
    FreshMergeOk(d, merge, expected);
    MergePrefixResult(tm, d, |d.keys|, merge);
    FreshMergeResult(d, merge, expected, MergePrefix(tm, d, |d.keys|, merge).value);
  }

  /** The merge of overrides that each build an entry does not fail. */
  lemma FreshMergeOk(d: Dict<RawEntry>, merge: EntryMerge, expected: map<string, TokenEntry>)
    requires MergesTo(d, merge, expected)
    ensures MergePrefix(EmptyDict(), d, |d.keys|, merge).Ok?
  {
    MergeOkWhen(EmptyDict(), d, |d.keys|, merge);
  }

  /** Every entry of `DEFAULT_TOKEN_MAP` merges into its typed form. */
  lemma DefaultEntriesMerge()
    ensures MergesTo(DefaultTokenMap(), MergeEntry, DEFAULT_TOKEN_ENTRIES)
  {
    var d := DefaultTokenMap();
    forall j | 0 <= j < |d.keys|
      ensures d.keys[j] in DEFAULT_TOKEN_ENTRIES
      ensures MergeEntry(d.keys[j], d.values[d.keys[j]]) == Ok(DEFAULT_TOKEN_ENTRIES[d.keys[j]])
    {
      var k := d.keys[j];
      var e := DEFAULT_TOKEN_ENTRIES[k];
      MergeEntryResolution(k, AsRaw(e).attrs);
    }
  }

  /** Merging into the empty map entries that all succeed gives those entries
      in the overrides' order. */
  lemma FreshMergeResult(d: Dict<RawEntry>, merge: EntryMerge, expected: map<string, TokenEntry>, r: TokenMap)
    requires MergesTo(d, merge, expected)
    requires forall k :: k in expected ==> k in d.keys
    requires KeysAfter(EmptyDict<TokenEntry>(), d.keys[..|d.keys|], r) && ValuesAfter(EmptyDict(), d, |d.keys|, merge, r)
    ensures r == DictRep(d.keys, expected)
  {
    var tm: TokenMap := EmptyDict();
    assert d.keys[..|d.keys|] == d.keys;
    NewKeysAbsent(tm.values, d.keys);
    FreshMergeValues(d, merge, expected, r);
  }

  lemma FreshMergeValues(d: Dict<RawEntry>, merge: EntryMerge, expected: map<string, TokenEntry>, r: TokenMap)
    requires MergesTo(d, merge, expected)
    requires forall k :: k in expected ==> k in d.keys
    requires forall k :: k in r.values ==> k in d.keys
    requires ValuesAfter(EmptyDict(), d, |d.keys|, merge, r)
    ensures r.values == expected
  {
    FreshValuesExpected(d, merge, expected, r);
    FreshKeysPresent(d, merge, expected, r);
    SameEntries(r.values, expected);
  }

  /** Every expected key has been merged in. */
  lemma FreshKeysPresent(d: Dict<RawEntry>, merge: EntryMerge, expected: map<string, TokenEntry>, r: TokenMap)
    requires forall k :: k in expected ==> k in d.keys
    requires MergedValues(d, |d.keys|, merge, r)
    ensures forall k :: k in expected ==> k in r.values
  {
    forall k | k in expected ensures k in r.values {
      var j :| 0 <= j < |d.keys| && d.keys[j] == k;
    }
  }

  /** Two maps with the same keys and the same value at each key are equal. */
  lemma SameEntries<V>(a: map<string, V>, b: map<string, V>)
    requires forall k :: k in a ==> k in b && a[k] == b[k]
    requires forall k :: k in b ==> k in a
    ensures a == b
  {
  }

  lemma FreshValuesExpected(d: Dict<RawEntry>, merge: EntryMerge, expected: map<string, TokenEntry>, r: TokenMap)
    requires MergesTo(d, merge, expected)
    requires forall k :: k in r.values ==> k in d.keys
    requires ValuesAfter(EmptyDict(), d, |d.keys|, merge, r)
    ensures forall k :: k in r.values ==> k in expected && r.values[k] == expected[k]
  {
    forall k | k in r.values ensures k in expected && r.values[k] == expected[k] {
      var j :| 0 <= j < |d.keys| && d.keys[j] == k;
    }
  }

  /** Merging only keys the map already holds keeps its order of keys. */
  lemma PresentKeysKept<V, W>(base: Dict<W>, seen: seq<string>, r: Dict<V>)
    requires forall k :: k in seen ==> k in base.values
    requires KeysAfter(base, seen, r)
    ensures r.keys == base.keys
  {
    NewKeysPresent(base.values, seen);
    assert r.keys == base.keys + [];
  }
}
