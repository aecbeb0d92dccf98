/**
  The few Python runtime values the modelled code inspects with `isinstance`
  or a truth test, and Python's insertion-ordered `dict` with string keys.
 */
module PyValues {

  /** A Python value as far as the modelled code can tell them apart. The
      code reads the items of a list only through f-strings, so a list is
      known by the text `str()` gives for each of its items (`[1, "]"]` is
      `PyList(["1", "]"])`); any other object is known only by its truth
      value. */
  datatype PyValue =
    | PyNone
    | PyStr(s: string)
    | PyInt(i: int)
    | PyBool(b: bool)
    | PyList(shown: seq<string>)
    | PyObject(truthy: bool)

  /** Python's truth test (`if v:` / `assert v`). */
  predicate Truthy(v: PyValue) {
    match v
    case PyNone => false
    case PyStr(s) => s != []
    case PyInt(i) => i != 0
    case PyBool(b) => b
    case PyList(shown) => shown != []
    case PyObject(t) => t
  }

  /** `isinstance(v, int)`: `bool` is a subclass of `int`. */
  predicate IsInt(v: PyValue) {
    v.PyInt? || v.PyBool?
  }

  /** The integer value of an `int` (or `bool`: False is 0, True is 1). */
  function IntValue(v: PyValue): int
    requires IsInt(v)
  {
    if v.PyInt? then v.i else if v.b then 1 else 0
  }

  /** The representation of a Python `dict` with string keys: the keys in
      insertion order, and the key-to-value mapping. */
  datatype DictRep<V> = DictRep(keys: seq<string>, values: map<string, V>)

  predicate WellFormedDict<V>(d: DictRep<V>) {
    && (forall i, j :: 0 <= i < j < |d.keys| ==> d.keys[i] != d.keys[j])
    && d.values.Keys == set k | k in d.keys
  }

  /** A Python `dict`: no key twice, and the order is the insertion order. */
  type Dict<V> = d: DictRep<V> | WellFormedDict(d) witness DictRep([], map[])

  function EmptyDict<V>(): Dict<V> {
    DictRep([], map[])
  }

  /** `d[k] = v`: an existing key keeps its place, a new key goes last. */
  function Put<V>(d: Dict<V>, k: string, v: V): Dict<V> {
    if k in d.values then DictRep(d.keys, d.values[k := v])
    else DictRep(d.keys + [k], d.values[k := v])
  }
}
