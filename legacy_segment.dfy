/** The legacy segment of src/Aura/Session/Segment.php and the legacy CSRF
    token of src/Aura/Session/CsrfToken.php. A legacy segment is bound by
    reference to an external array (class Bag): every segment bound to the
    same Bag, and every direct write to it, sees the same entries. Flash
    values live inside that array under the key `__flash` and are read once. */
module LegacySegment {
  import opened PhpValues
  import opened Environment

  const FLASH_KEY: Key := "__flash"

  /** The external array a legacy segment is bound to. */
  class Bag {
    var data: map<Key, Value>

    constructor (data: map<Key, Value>)
      ensures this.data == data
    {
      this.data := data;
    }
  }

  /** `$data['__flash']` read as an array. */
  function Flashes(d: map<Key, Value>): map<Key, Value> {
    Entries(Lookup(d, FLASH_KEY))
  }

  /** `isset($data['__flash'][$key])`. */
  predicate HasFlashIn(d: map<Key, Value>, key: Key) {
    IsSet(Lookup(Flashes(d), key))
  }

  /** `$data[$key]` taken by reference, as `&__get` does: a missing key is
      created holding null. */
  function Touched(d: map<Key, Value>, key: Key): (r: map<Key, Value>)
    ensures key in r && r[key] == Lookup(d, key)
    ensures forall j :: Lookup(r, j) == Lookup(d, j)
    ensures r.Keys == d.Keys + {key}
    ensures key in d ==> r == d
  {
    if key in d then d else d[key := Null]
  }

  /** `$data['__flash'][$key] = $val`. */
  function WithFlash(d: map<Key, Value>, key: Key, val: Value): (r: map<Key, Value>)
    ensures Flashes(r) == Flashes(d)[key := val]
    ensures forall j :: j != FLASH_KEY ==> Lookup(r, j) == Lookup(d, j)
  {
    d[FLASH_KEY := Put(Lookup(d, FLASH_KEY), key, val)]
  }

  /** `getFlash($key)`: the flash value when set, which is then removed;
      null otherwise, with nothing changed. */
  function TakeFlash(d: map<Key, Value>, key: Key): (r: (Value, map<Key, Value>))
    ensures HasFlashIn(d, key) ==> r.0 == Flashes(d)[key] && Flashes(r.1) == Flashes(d) - {key}
    ensures !HasFlashIn(d, key) ==> r.0 == Null && r.1 == d
    ensures forall j :: j != FLASH_KEY ==> Lookup(r.1, j) == Lookup(d, j)
  {
    if HasFlashIn(d, key) then (Flashes(d)[key], d[FLASH_KEY := Drop(d[FLASH_KEY], key)]) else (Null, d)
  }

  /** Setting, then reading a key through the segment: `__isset` says
      whether the value is non-null, `__get` gives it back, the bound array
      holds it, and no other key reads differently. */
  lemma SetThenGet(d: map<Key, Value>, key: Key, val: Value)
    ensures IsSet(Lookup(d[key := val], key)) <==> IsSet(val)
    ensures d[key := val][key] == val
    ensures Touched(d[key := val], key) == d[key := val]
    ensures forall j :: j != key ==> Lookup(d[key := val], j) == Lookup(d, j)
  {
  }

  /** After `__unset($key)` the key is not set and every other key reads as
      before; `__get` never changes what any key reads. */
  lemma UnsetAndTouch(d: map<Key, Value>, key: Key, other: Key)
    ensures !IsSet(Lookup(d - {key}, key))
    ensures forall j :: j != key ==> Lookup(d - {key}, j) == Lookup(d, j)
    ensures Lookup(Touched(d, other), key) == Lookup(d, key)
  {
  }

  /** Read-once flash: after `setFlash(k, v)` with `v` not null, `hasFlash(k)`
      holds and `getFlash(k)` answers `v`; then `hasFlash(k)` is false and a
      second `getFlash(k)` answers null. The other flash values and every
      ordinary key are untouched throughout. */
  lemma FlashReadOnce(d: map<Key, Value>, key: Key, val: Value)
    requires IsSet(val)
    ensures HasFlashIn(WithFlash(d, key, val), key)
    ensures TakeFlash(WithFlash(d, key, val), key).0 == val
    ensures !HasFlashIn(TakeFlash(WithFlash(d, key, val), key).1, key)
    ensures TakeFlash(TakeFlash(WithFlash(d, key, val), key).1, key).0 == Null
    ensures forall j :: j != key ==>
              Lookup(Flashes(TakeFlash(WithFlash(d, key, val), key).1), j) == Lookup(Flashes(d), j)
    ensures forall j :: j != FLASH_KEY ==> Lookup(TakeFlash(WithFlash(d, key, val), key).1, j) == Lookup(d, j)
  {
    var w := WithFlash(d, key, val);
    assert HasFlashIn(w, key);
    var t := TakeFlash(w, key);
    assert Flashes(t.1) == Flashes(w) - {key};
    assert !HasFlashIn(t.1, key);
    forall j | j != key ensures Lookup(Flashes(t.1), j) == Lookup(Flashes(d), j) {
      assert Lookup(Flashes(w), j) == Lookup(Flashes(d), j);
    }
  }

  /** A null flash value is never reported: `hasFlash` is false and
      `getFlash` answers null, changing nothing. */
  lemma NullFlashIsAbsent(d: map<Key, Value>, key: Key)
    ensures !HasFlashIn(WithFlash(d, key, Null), key)
    ensures TakeFlash(WithFlash(d, key, Null), key) == (Null, WithFlash(d, key, Null))
  {
  }

  /** `clearFlash()` removes every flash value and no ordinary key;
      `clear()` removes everything, flash values included. */
  lemma ClearingFlashes(d: map<Key, Value>, key: Key)
    ensures !HasFlashIn(d - {FLASH_KEY}, key)
    ensures forall j :: j != FLASH_KEY ==> Lookup(d - {FLASH_KEY}, j) == Lookup(d, j)
    ensures !HasFlashIn(map[], key) && !IsSet(Lookup(map[], key))
  {
  }

  /** A legacy segment: a name and a bound array. */
  class Segment {
    const name: Key
    const bag: Bag

    /** `__construct($name, &$data)`: the segment keeps the array by
        reference. */
    constructor (name: Key, bag: Bag)
      ensures this.name == name && this.bag == bag
    {
      this.name := name;
      this.bag := bag;
    }

    /** `getName()`: the constructor's name, which no method changes. */
    function GetName(): Key {
      name
    }

    /** `&__get($key)`. */
    method Get(key: Key) returns (r: Value)
      modifies bag
      ensures r == Lookup(old(bag.data), key)
      ensures bag.data == Touched(old(bag.data), key)
    {
      if key !in bag.data {
        bag.data := bag.data[key := Null];
      }
      r := bag.data[key];
    }

    /** `__set($key, $val)`. */
    method Set(key: Key, val: Value)
      modifies bag
      ensures bag.data == old(bag.data)[key := val]
    {
      bag.data := bag.data[key := val];
    }

    /** `__isset($key)`: it agrees with what `&__get` reads, and a key it
        reports as set is not changed by reading it. */
    predicate Has(key: Key)
      reads bag
      ensures Has(key) <==> IsSet(Lookup(Touched(bag.data, key), key))
      ensures Has(key) ==> Touched(bag.data, key) == bag.data
    {
      IsSet(Lookup(bag.data, key))
    }

    /** `__unset($key)`. */
    method Unset(key: Key)
      modifies bag
      ensures bag.data == old(bag.data) - {key}
    {
      bag.data := bag.data - {key};
    }

    /** `clear()`. */
    method Clear()
      modifies bag
      ensures bag.data == map[]
    {
      bag.data := map[];
    }

    /** `setFlash($key, $val)`. */
    method SetFlash(key: Key, val: Value)
      modifies bag
      ensures bag.data == WithFlash(old(bag.data), key, val)
    {
      bag.data := WithFlash(bag.data, key, val);
    }

    /** `getFlash($key)`: read and remove. */
    method GetFlash(key: Key) returns (r: Value)
      modifies bag
      ensures (r, bag.data) == TakeFlash(old(bag.data), key)
    {
      r := Null;
      if HasFlash(key) {
        r := bag.data[FLASH_KEY].entries[key];
        bag.data := bag.data[FLASH_KEY := Drop(bag.data[FLASH_KEY], key)];
      }
    }

    /** `hasFlash($key)`: true exactly when `getFlash($key)` would answer a
        value that is not null; when false, `getFlash` changes nothing. */
    predicate HasFlash(key: Key)
      reads bag
      ensures HasFlash(key) <==> IsSet(TakeFlash(bag.data, key).0)
      ensures !HasFlash(key) ==> TakeFlash(bag.data, key).1 == bag.data
    {
      HasFlashIn(bag.data, key)
    }

    /** `clearFlash()`. */
    method ClearFlash()
      modifies bag
      ensures bag.data == old(bag.data) - {FLASH_KEY}
    {
      bag.data := bag.data - {FLASH_KEY};
    }
  }

  /** What the segment reads through `__get` after the bound array was
      written directly: the array's own value. */
  method DirectWriteIsVisible(seg: Segment, key: Key, val: Value) returns (r: Value)
    modifies seg.bag
    ensures r == val
  {
    seg.bag.data := seg.bag.data[key := val];
    r := seg.Get(key);
  }

  /** The legacy CSRF token: one value under the key `value` of its segment. */
  class CsrfToken {
    const segment: Segment
    const randval: Randval
    /** `hash('sha512', ·)`. */
    const hash: string -> string

    /** The constructor stores a new value only when none is set. */
    constructor (segment: Segment, randval: Randval, hash: string -> string)
      modifies segment.bag, randval
      ensures this.segment == segment && this.randval == randval && this.hash == hash
      ensures IsSet(Lookup(segment.bag.data, "value"))
      ensures IsSet(Lookup(old(segment.bag.data), "value")) ==>
                segment.bag.data == old(segment.bag.data) && randval.calls == old(randval.calls)
      ensures !IsSet(Lookup(old(segment.bag.data), "value")) ==>
                && segment.bag.data == old(segment.bag.data)["value" := Str(hash(randval.outputs(old(randval.calls))))]
                && randval.calls == old(randval.calls) + 1
    {
      this.segment := segment;
      this.randval := randval;
      this.hash := hash;
      new;
      if !segment.Has("value") {
        RegenerateValue();
      }
    }

    /** `isValid($value)`: strict comparison with the stored value. */
    method IsValid(value: Value) returns (ok: bool)
      modifies segment.bag
      ensures ok <==> value == Lookup(old(segment.bag.data), "value")
      ensures segment.bag.data == Touched(old(segment.bag.data), "value")
    {
      var current := GetValue();
      ok := value == current;
    }

    /** `getValue()`: the stored value, read through `__get`. */
    method GetValue() returns (r: Value)
      modifies segment.bag
      ensures r == Lookup(old(segment.bag.data), "value")
      ensures segment.bag.data == Touched(old(segment.bag.data), "value")
    {
      r := segment.Get("value");
    }

    /** `regenerateValue()`: overwrite `value` with the hash of a new random
        value. */
    method RegenerateValue()
      modifies segment.bag, randval
      ensures randval.calls == old(randval.calls) + 1
      ensures segment.bag.data == old(segment.bag.data)["value" := Str(hash(randval.outputs(old(randval.calls))))]
    {
      var raw := randval.Generate();
      segment.Set("value", Str(hash(raw)));
    }
  }

  /** `regenerateValue()` followed by `isValid(previous)`: the check passes
      exactly when `previous` is the new hash, so any other earlier value,
      the old token included unless it happens to equal the new hash, no
      longer validates; no key but `value` reads differently. */
  method RegenerateInvalidates(t: CsrfToken, previous: Value) returns (ok: bool)
    modifies t.segment.bag, t.randval
    ensures ok <==> previous == Str(t.hash(t.randval.outputs(old(t.randval.calls))))
    ensures forall j :: j != "value" ==> Lookup(t.segment.bag.data, j) == Lookup(old(t.segment.bag.data), j)
  {
    t.RegenerateValue();
    ok := t.IsValid(previous);
  }

  /** `getValue()` and `isValid()` change nothing once `value` is set, as the
      constructor leaves it; in any case a second read changes nothing
      further and every key reads as before. */
  lemma GetValueSettles(d: map<Key, Value>, other: Key)
    ensures IsSet(Lookup(d, "value")) ==> Touched(d, "value") == d
    ensures Touched(Touched(d, "value"), "value") == Touched(d, "value")
    ensures Lookup(Touched(d, "value"), other) == Lookup(d, other)
  {
  }
}
