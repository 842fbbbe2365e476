/** PHP values as they occur in the session array and in cookie snapshots:
    the scalars the session code tests and compares, and arrays keyed by
    (non-numeric) strings. The helpers below give PHP's array reads and
    writes (`isset`, `$a[$k]`, `$a[$k] = $v`, `unset`, `array_merge`). */
module PhpValues {

  type Key = string

  datatype Option<T> = None | Some(value: T)

  datatype Value =
    | Null
    | Bool(b: bool)
    | Int(i: int)
    | Str(s: string)
    | Arr(entries: map<Key, Value>)

  /** `isset($v)` for a value that exists: anything but null. */
  predicate IsSet(v: Value) {
    !v.Null?
  }

  /** Reading `$m[$k]`, where a missing key reads as null. */
  function Lookup(m: map<Key, Value>, k: Key): Value {
    if k in m then m[k] else Null
  }

  /** The entries of a value used as an array; a non-array has none
      (`isset` and `foreach` see no string-keyed entries in a scalar). */
  function Entries(v: Value): map<Key, Value> {
    if v.Arr? then v.entries else map[]
  }

  /** `$c[$k] = $v` on an array, or on null, which becomes an array. PHP
      refuses the write on any other scalar; the model writes into an empty
      array there as well. */
  function Put(c: Value, k: Key, v: Value): (r: Value)
    ensures r.Arr? && k in Entries(r) && Entries(r)[k] == v
    ensures forall j :: j != k ==> Lookup(Entries(r), j) == Lookup(Entries(c), j)
    ensures Entries(r).Keys == Entries(c).Keys + {k}
  {
    Arr(Entries(c)[k := v])
  }

  /** `unset($c[$k])`; unsetting inside a non-array changes nothing. */
  function Drop(c: Value, k: Key): (r: Value)
    ensures Entries(r) == Entries(c) - {k}
    ensures c.Arr? <==> r.Arr?
  {
    if c.Arr? then Arr(c.entries - {k}) else c
  }

  /** `$v == null` under PHP's loose comparison. */
  predicate LooselyNull(v: Value) {
    match v
    case Null => true
    case Bool(b) => !b
    case Int(i) => i == 0
    case Str(s) => s == ""
    case Arr(m) => m == map[]
  }

  /** `if ($v)`: PHP truthiness; "0" is the one non-empty falsy string. */
  predicate Truthy(v: Value)
    ensures Truthy(v) ==> IsSet(v) && !LooselyNull(v)
  {
    !LooselyNull(v) && v != Str("0")
  }

  /** An optional key argument (`$key = null`) as the PHP value it denotes. */
  function KeyValue(key: Option<Key>): Value {
    match key
    case None => Null
    case Some(k) => Str(k)
  }

  /** `array_merge($a, $b)` for string keys: every key of either array,
      with the value from `$b` wherever both have the key. */
  function Merge(a: map<Key, Value>, b: map<Key, Value>): (r: map<Key, Value>)
    ensures r.Keys == a.Keys + b.Keys
    ensures forall k :: k in b ==> r[k] == b[k]
    ensures forall k :: k in a && k !in b ==> r[k] == a[k]
  {
    a + b
  }
}
