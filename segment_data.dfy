/** What src/Segment.php does to the shared `$_SESSION` array, as functions
    on that array. A segment named `n` keeps its values in `$_SESSION[n]`
    (its partition) and its flash values in `$_SESSION[FLASH_NOW][n]`
    (readable in this request) and `$_SESSION[FLASH_NEXT][n]` (written for
    the next request). Every segment with the same name reaches the same
    entries, so segments are views of one array. */
module SegmentData {
  import opened PhpValues

  /** The two reserved top-level keys holding the flash buckets of all
      segments. */
  const FLASH_NOW: Key := "Aura\\Session\\Flash\\Now"
  const FLASH_NEXT: Key := "Aura\\Session\\Flash\\Next"

  /** A segment whose name is not one of the two flash keys. */
  predicate Ordinary(n: Key) {
    n != FLASH_NOW && n != FLASH_NEXT
  }

  /** `$_SESSION[n]` read as an array. */
  function Partition(d: map<Key, Value>, n: Key): map<Key, Value> {
    Entries(Lookup(d, n))
  }

  /** `$_SESSION[b][n]` read as an array, `b` being a flash key. */
  function Bucket(d: map<Key, Value>, b: Key, n: Key): map<Key, Value> {
    Entries(Lookup(Entries(Lookup(d, b)), n))
  }

  /** All three containers of segment `n` exist (are set). */
  predicate Loaded(d: map<Key, Value>, n: Key) {
    && IsSet(Lookup(d, n))
    && IsSet(Lookup(Entries(Lookup(d, FLASH_NOW)), n))
    && IsSet(Lookup(Entries(Lookup(d, FLASH_NEXT)), n))
  }

  /** `$_SESSION[b][n] = $m`. */
  function ResetBucket(d: map<Key, Value>, b: Key, n: Key, m: map<Key, Value>): map<Key, Value> {
    d[b := Put(Lookup(d, b), n, Arr(m))]
  }

  /** Resetting a bucket changes that bucket and nothing else a segment reads. */
  lemma ResetBucketSpec(d: map<Key, Value>, b: Key, n: Key, m: map<Key, Value>)
    ensures Bucket(ResetBucket(d, b, n, m), b, n) == m
    ensures forall j :: j != n ==> Bucket(ResetBucket(d, b, n, m), b, j) == Bucket(d, b, j)
    ensures forall c, j :: c != b ==> Bucket(ResetBucket(d, b, n, m), c, j) == Bucket(d, c, j)
    ensures forall j :: j != b ==> Partition(ResetBucket(d, b, n, m), j) == Partition(d, j)
  {
  }

  /** One step of `load()`: create `$_SESSION[b][n]` as an empty array
      unless it is set. */
  function InitBucket(d: map<Key, Value>, b: Key, n: Key): (r: map<Key, Value>)
    ensures IsSet(Lookup(Entries(Lookup(r, b)), n))
    ensures IsSet(Lookup(Entries(Lookup(d, b)), n)) ==> r == d
    ensures forall j :: j != b ==> Lookup(r, j) == Lookup(d, j)
    ensures forall c, j :: Bucket(r, c, j) == Bucket(d, c, j)
  {
    if IsSet(Lookup(Entries(Lookup(d, b)), n)) then d
    else
      ResetBucketSpec(d, b, n, map[]);
      ResetBucket(d, b, n, map[])
  }

  /** `Segment::load()`: create the missing containers of segment `n`. */
  function Load(d: map<Key, Value>, n: Key): map<Key, Value> {
    var d1 := if IsSet(Lookup(d, n)) then d else d[n := Arr(map[])];
    InitBucket(InitBucket(d1, FLASH_NOW, n), FLASH_NEXT, n)
  }

  /** `load()` only creates what is missing: afterwards the three containers
      exist, a container that was set is kept as it was, no other top-level
      entry changes, no partition or flash bucket reads differently, and a
      second load changes nothing. */
  lemma LoadSpec(d: map<Key, Value>, n: Key)
    requires Ordinary(n)
    ensures Loaded(Load(d, n), n)
    ensures IsSet(Lookup(d, n)) ==> Load(d, n)[n] == d[n]
    ensures IsSet(Lookup(Entries(Lookup(d, FLASH_NOW)), n)) ==>
              Lookup(Entries(Lookup(Load(d, n), FLASH_NOW)), n) == Lookup(Entries(Lookup(d, FLASH_NOW)), n)
    ensures IsSet(Lookup(Entries(Lookup(d, FLASH_NEXT)), n)) ==>
              Lookup(Entries(Lookup(Load(d, n), FLASH_NEXT)), n) == Lookup(Entries(Lookup(d, FLASH_NEXT)), n)
    ensures forall j :: j != n && Ordinary(j) ==> Lookup(Load(d, n), j) == Lookup(d, j)
    ensures forall j :: Ordinary(j) ==> Partition(Load(d, n), j) == Partition(d, j)
    ensures forall c, j :: Bucket(Load(d, n), c, j) == Bucket(d, c, j)
    ensures Load(Load(d, n), n) == Load(d, n)
  {
    var d1 := if IsSet(Lookup(d, n)) then d else d[n := Arr(map[])];
    assert forall j :: Partition(d1, j) == Partition(d, j);
    assert forall c, j :: Bucket(d1, c, j) == Bucket(d, c, j) by {
      assert Lookup(d1, FLASH_NOW) == Lookup(d, FLASH_NOW);
      assert Lookup(d1, FLASH_NEXT) == Lookup(d, FLASH_NEXT);
      forall c, j ensures Bucket(d1, c, j) == Bucket(d, c, j) {
        if c == n {
          assert Entries(Lookup(d1, c)) == map[] || Entries(Lookup(d1, c)) == Entries(Lookup(d, c));
        }
      }
    }
    var d2 := InitBucket(d1, FLASH_NOW, n);
    var d3 := InitBucket(d2, FLASH_NEXT, n);
    assert Load(d, n) == d3;
    assert Loaded(d3, n);
    LoadedIsFixed(d3, n);
  }

  /** Loading never changes what a flash read answers. */
  lemma LoadKeepsFlash(d: map<Key, Value>, n: Key, b: Key, k: Key, alt: Value)
    requires Ordinary(n)
    ensures GetFlashKey(Load(d, n), b, n, k, alt) == GetFlashKey(d, b, n, k, alt)
  {
    LoadSpec(d, n);
  }

  /** Loading a loaded segment changes nothing. */
  lemma LoadedIsFixed(d: map<Key, Value>, n: Key)
    requires Loaded(d, n)
    ensures Load(d, n) == d
  {
  }

  /** `isset($_SESSION[n][k]) ? $_SESSION[n][k] : $alt` (`get`). */
  function GetKey(d: map<Key, Value>, n: Key, k: Key, alt: Value): (r: Value)
    ensures k in Partition(d, n) && IsSet(Partition(d, n)[k]) ==> r == Partition(d, n)[k]
    ensures k !in Partition(d, n) || !IsSet(Partition(d, n)[k]) ==> r == alt
  {
    var v := Lookup(Partition(d, n), k);
    if IsSet(v) then v else alt
  }

  /** `isset($_SESSION[b][n][k]) ? $_SESSION[b][n][k] : $alt`
      (`getFlash` with FLASH_NOW, `getFlashNext` with FLASH_NEXT). */
  function GetFlashKey(d: map<Key, Value>, b: Key, n: Key, k: Key, alt: Value): (r: Value)
    ensures k in Bucket(d, b, n) && IsSet(Bucket(d, b, n)[k]) ==> r == Bucket(d, b, n)[k]
    ensures k !in Bucket(d, b, n) || !IsSet(Bucket(d, b, n)[k]) ==> r == alt
  {
    var v := Lookup(Bucket(d, b, n), k);
    if IsSet(v) then v else alt
  }

  /** `isset($_SESSION[n]) ? $_SESSION[n] : null` (`getSegment`). */
  function SegmentValue(d: map<Key, Value>, n: Key): (r: Value)
    ensures n in d && IsSet(d[n]) ==> r == d[n]
    ensures n !in d || !IsSet(d[n]) ==> r == Null
  {
    Lookup(d, n)
  }

  /** `$_SESSION[n][k] = $v` (`set`): only key `k` of this partition changes;
      no other partition and, for an ordinary name, no flash bucket. */
  function SetKey(d: map<Key, Value>, n: Key, k: Key, v: Value): map<Key, Value> {
    d[n := Put(Lookup(d, n), k, v)]
  }

  lemma SetKeySpec(d: map<Key, Value>, n: Key, k: Key, v: Value)
    ensures Partition(SetKey(d, n, k, v), n) == Partition(d, n)[k := v]
    ensures forall j :: j != n ==> Lookup(SetKey(d, n, k, v), j) == Lookup(d, j)
    ensures forall c, j :: c != n ==> Bucket(SetKey(d, n, k, v), c, j) == Bucket(d, c, j)
    ensures Loaded(d, n) && Ordinary(n) ==> Loaded(SetKey(d, n, k, v), n)
  {
  }

  /** `$_SESSION[n] = array()` (`clear`). */
  function ClearSegment(d: map<Key, Value>, n: Key): map<Key, Value> {
    d[n := Arr(map[])]
  }

  lemma ClearSegmentSpec(d: map<Key, Value>, n: Key)
    ensures Partition(ClearSegment(d, n), n) == map[]
    ensures forall j :: j != n ==> Lookup(ClearSegment(d, n), j) == Lookup(d, j)
    ensures forall c, j :: c != n ==> Bucket(ClearSegment(d, n), c, j) == Bucket(d, c, j)
  {
  }

  /** `remove($key)`: a truthy key is unset from the partition when present;
      a falsy one (null, "" or "0") unsets the whole partition. */
  function RemoveKey(d: map<Key, Value>, n: Key, key: Option<Key>): map<Key, Value> {
    if Truthy(KeyValue(key)) then
      if IsSet(Lookup(d, n)) && key.value in Entries(d[n]) then d[n := Drop(d[n], key.value)] else d
    else
      d - {n}
  }

  lemma RemoveKeySpec(d: map<Key, Value>, n: Key, key: Option<Key>)
    ensures Truthy(KeyValue(key)) ==> Partition(RemoveKey(d, n, key), n) == Partition(d, n) - {key.value}
    ensures Truthy(KeyValue(key)) ==> RemoveKey(d, n, key).Keys == d.Keys
    ensures !Truthy(KeyValue(key)) ==> RemoveKey(d, n, key) == d - {n}
    ensures forall j :: j != n ==> Lookup(RemoveKey(d, n, key), j) == Lookup(d, j)
    ensures forall c, j :: c != n ==> Bucket(RemoveKey(d, n, key), c, j) == Bucket(d, c, j)
  {
  }

  /** `$_SESSION[b][n][k] = $v`. */
  function SetFlashKey(d: map<Key, Value>, b: Key, n: Key, k: Key, v: Value): map<Key, Value> {
    d[b := Put(Lookup(d, b), n, Put(Lookup(Entries(Lookup(d, b)), n), k, v))]
  }

  lemma SetFlashKeySpec(d: map<Key, Value>, b: Key, n: Key, k: Key, v: Value)
    ensures Bucket(SetFlashKey(d, b, n, k, v), b, n) == Bucket(d, b, n)[k := v]
    ensures forall j :: j != n ==> Bucket(SetFlashKey(d, b, n, k, v), b, j) == Bucket(d, b, j)
    ensures forall c, j :: c != b ==> Bucket(SetFlashKey(d, b, n, k, v), c, j) == Bucket(d, c, j)
    ensures forall j :: j != b ==> Partition(SetFlashKey(d, b, n, k, v), j) == Partition(d, j)
    ensures forall j :: j != b ==> Lookup(SetFlashKey(d, b, n, k, v), j) == Lookup(d, j)
    ensures Loaded(d, n) && Ordinary(n) && (b == FLASH_NOW || b == FLASH_NEXT) ==> Loaded(SetFlashKey(d, b, n, k, v), n)
  {
  }

  /** `setFlash`: the value goes to the next request's bucket only. */
  function SetFlashNext(d: map<Key, Value>, n: Key, k: Key, v: Value): map<Key, Value> {
    SetFlashKey(d, FLASH_NEXT, n, k, v)
  }

  /** `setFlashNow`: the value goes to both buckets. */
  function SetFlashBoth(d: map<Key, Value>, n: Key, k: Key, v: Value): map<Key, Value> {
    SetFlashKey(SetFlashKey(d, FLASH_NOW, n, k, v), FLASH_NEXT, n, k, v)
  }

  /** `clearFlash`: empties the next request's bucket only. */
  function ClearFlashNext(d: map<Key, Value>, n: Key): map<Key, Value> {
    ResetBucket(d, FLASH_NEXT, n, map[])
  }

  /** `clearFlashNow`: empties both buckets. */
  function ClearFlashBoth(d: map<Key, Value>, n: Key): map<Key, Value> {
    ResetBucket(ResetBucket(d, FLASH_NOW, n, map[]), FLASH_NEXT, n, map[])
  }

  /** `keepFlash`: `NEXT[n] = array_merge(NEXT[n], NOW[n])`. */
  function KeepFlash(d: map<Key, Value>, n: Key): map<Key, Value> {
    ResetBucket(d, FLASH_NEXT, n, Merge(Bucket(d, FLASH_NEXT, n), Bucket(d, FLASH_NOW, n)))
  }

  /** `setFlash(k, v)` makes `getFlashNext(k)` see `v` and leaves what
      `getFlash` sees, the other flash keys, other segments and all
      partitions as they were. */
  lemma SetFlashNextSpec(d: map<Key, Value>, n: Key, k: Key, v: Value, alt: Value)
    requires Ordinary(n)
    ensures GetFlashKey(SetFlashNext(d, n, k, v), FLASH_NEXT, n, k, alt) == if IsSet(v) then v else alt
    ensures forall j :: j != k ==> GetFlashKey(SetFlashNext(d, n, k, v), FLASH_NEXT, n, j, alt) == GetFlashKey(d, FLASH_NEXT, n, j, alt)
    ensures forall j, i :: GetFlashKey(SetFlashNext(d, n, k, v), FLASH_NOW, j, i, alt) == GetFlashKey(d, FLASH_NOW, j, i, alt)
    ensures forall j :: j != n ==> Bucket(SetFlashNext(d, n, k, v), FLASH_NEXT, j) == Bucket(d, FLASH_NEXT, j)
    ensures forall j :: Ordinary(j) ==> Partition(SetFlashNext(d, n, k, v), j) == Partition(d, j)
  {
    var r := SetFlashNext(d, n, k, v);
    SetFlashKeySpec(d, FLASH_NEXT, n, k, v);
    assert Bucket(r, FLASH_NEXT, n) == Bucket(d, FLASH_NEXT, n)[k := v];
  }

  /** `setFlashNow(k, v)` makes both `getFlash(k)` and `getFlashNext(k)` see
      `v`, and changes no other key, segment or partition. */
  lemma SetFlashBothSpec(d: map<Key, Value>, n: Key, k: Key, v: Value, alt: Value)
    requires Ordinary(n)
    ensures GetFlashKey(SetFlashBoth(d, n, k, v), FLASH_NOW, n, k, alt) == if IsSet(v) then v else alt
    ensures GetFlashKey(SetFlashBoth(d, n, k, v), FLASH_NEXT, n, k, alt) == if IsSet(v) then v else alt
    ensures Bucket(SetFlashBoth(d, n, k, v), FLASH_NOW, n) == Bucket(d, FLASH_NOW, n)[k := v]
    ensures Bucket(SetFlashBoth(d, n, k, v), FLASH_NEXT, n) == Bucket(d, FLASH_NEXT, n)[k := v]
    ensures forall c, j :: j != n ==> Bucket(SetFlashBoth(d, n, k, v), c, j) == Bucket(d, c, j)
    ensures forall j :: Ordinary(j) ==> Partition(SetFlashBoth(d, n, k, v), j) == Partition(d, j)
  {
    var d1 := SetFlashKey(d, FLASH_NOW, n, k, v);
    var r := SetFlashKey(d1, FLASH_NEXT, n, k, v);
    SetFlashKeySpec(d, FLASH_NOW, n, k, v);
    SetFlashKeySpec(d1, FLASH_NEXT, n, k, v);
    assert Bucket(r, FLASH_NOW, n) == Bucket(d1, FLASH_NOW, n);
    assert Bucket(r, FLASH_NEXT, n) == Bucket(d, FLASH_NEXT, n)[k := v];
  }

  /** `clearFlash()` empties only the next request's bucket of this segment;
      `clearFlashNow()` empties both of its buckets. Neither touches other
      segments or any partition. */
  lemma ClearFlashSpec(d: map<Key, Value>, n: Key)
    ensures Bucket(ClearFlashNext(d, n), FLASH_NEXT, n) == map[]
    ensures Bucket(ClearFlashNext(d, n), FLASH_NOW, n) == Bucket(d, FLASH_NOW, n)
    ensures Bucket(ClearFlashBoth(d, n), FLASH_NOW, n) == map[]
    ensures Bucket(ClearFlashBoth(d, n), FLASH_NEXT, n) == map[]
    ensures forall c, j :: j != n ==> Bucket(ClearFlashNext(d, n), c, j) == Bucket(d, c, j)
    ensures forall c, j :: j != n ==> Bucket(ClearFlashBoth(d, n), c, j) == Bucket(d, c, j)
    ensures forall j :: Ordinary(j) ==> Partition(ClearFlashNext(d, n), j) == Partition(d, j)
    ensures forall j :: Ordinary(j) ==> Partition(ClearFlashBoth(d, n), j) == Partition(d, j)
  {
    var d1 := ResetBucket(d, FLASH_NOW, n, map[]);
    ResetBucketSpec(d, FLASH_NEXT, n, map[]);
    ResetBucketSpec(d, FLASH_NOW, n, map[]);
    ResetBucketSpec(d1, FLASH_NEXT, n, map[]);
    assert Bucket(ResetBucket(d1, FLASH_NEXT, n, map[]), FLASH_NOW, n) == Bucket(d1, FLASH_NOW, n);
  }

  /** `keepFlash()`: the next bucket becomes the union of both buckets; a key
      in the current bucket takes the current value, a key only in the next
      bucket keeps its value; the current bucket, other segments and all
      partitions are unchanged. */
  lemma KeepFlashSpec(d: map<Key, Value>, n: Key)
    ensures Bucket(KeepFlash(d, n), FLASH_NEXT, n).Keys == Bucket(d, FLASH_NEXT, n).Keys + Bucket(d, FLASH_NOW, n).Keys
    ensures forall k :: k in Bucket(d, FLASH_NOW, n) ==> Bucket(KeepFlash(d, n), FLASH_NEXT, n)[k] == Bucket(d, FLASH_NOW, n)[k]
    ensures forall k :: k in Bucket(d, FLASH_NEXT, n) && k !in Bucket(d, FLASH_NOW, n) ==>
              Bucket(KeepFlash(d, n), FLASH_NEXT, n)[k] == Bucket(d, FLASH_NEXT, n)[k]
    ensures Bucket(KeepFlash(d, n), FLASH_NOW, n) == Bucket(d, FLASH_NOW, n)
    ensures forall c, j :: j != n ==> Bucket(KeepFlash(d, n), c, j) == Bucket(d, c, j)
    ensures forall j :: Ordinary(j) ==> Partition(KeepFlash(d, n), j) == Partition(d, j)
  {
    var m := Merge(Bucket(d, FLASH_NEXT, n), Bucket(d, FLASH_NOW, n));
    ResetBucketSpec(d, FLASH_NEXT, n, m);
    assert Bucket(KeepFlash(d, n), FLASH_NEXT, n) == m;
  }

  /** On a key present in both buckets the current request's value wins,
      contrary to the doc comment of `keepFlash` in src/Segment.php, which
      gives precedence to the next request's value. */
  lemma KeepFlashCurrentWins(d: map<Key, Value>, n: Key, k: Key, now: Value, next: Value)
    requires now != next
    requires Bucket(d, FLASH_NOW, n) == map[k := now]
    requires Bucket(d, FLASH_NEXT, n) == map[k := next]
    ensures GetFlashKey(KeepFlash(d, n), FLASH_NEXT, n, k, Null) == now
    ensures GetFlashKey(KeepFlash(d, n), FLASH_NEXT, n, k, Null) != next || !IsSet(now)
  {
    KeepFlashSpec(d, n);
  }

  /** `get(k)` after `set(k, v)`, on the array alone: `v` unless it is null,
      and every other key reads as before. */
  lemma ReadYourWrite(d: map<Key, Value>, n: Key, k: Key, v: Value, alt: Value)
    ensures GetKey(SetKey(d, n, k, v), n, k, alt) == if IsSet(v) then v else alt
    ensures forall j :: j != k ==> GetKey(SetKey(d, n, k, v), n, j, alt) == GetKey(d, n, j, alt)
    ensures forall m, j :: m != n ==> GetKey(SetKey(d, n, k, v), m, j, alt) == GetKey(d, m, j, alt)
  {
    var r := SetKey(d, n, k, v);
    SetKeySpec(d, n, k, v);
    assert Partition(r, n) == Partition(d, n)[k := v];
    forall m, j | m != n ensures GetKey(r, m, j, alt) == GetKey(d, m, j, alt) {
      assert Partition(r, m) == Partition(d, m);
    }
  }
}
