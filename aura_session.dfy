/** The current generation of the library: the session manager of
    src/Session.php, the segments of src/Segment.php and the CSRF token of
    src/CsrfToken.php, as classes sharing one Store. Each method is proved
    against the state functions of SessionFlow, whose lemmas state what the
    source promises. */
module AuraSession {
  import opened PhpValues
  import opened Environment
  import opened SegmentData
  import opened SessionFlow

  /** One call of the session-cookie deleter: name, path and domain. */
  datatype CookieDeletion = CookieDeletion(name: Key, path: Value, domain: Value)

  class Session {
    const store: Store
    /** The incoming cookies, a copy of `$_COOKIE`. */
    const cookies: map<Key, Value>
    /** The random source and hash handed to the CSRF token factory. */
    const randval: Randval
    const hash: string -> string
    var cookieParams: map<Key, Value>
    /** The CSRF token, created on first request. */
    var csrfToken: Option<CsrfToken>
    /** Every call of the cookie deleter, in order. */
    var deletedCookies: seq<CookieDeletion>

    /** The cached token, when there is one, reads the CSRF segment of this
        session and draws from this session's random source. */
    predicate Valid()
      reads this
    {
      csrfToken.Some? ==>
        && csrfToken.value.segment.session == this
        && csrfToken.value.segment.name == CSRF_SEGMENT
        && csrfToken.value.randval == randval
    }

    /** The cookie parameters start as `session_get_cookie_params()`. */
    constructor (store: Store, randval: Randval, hash: string -> string, cookies: map<Key, Value>)
      ensures this.store == store && this.randval == randval && this.hash == hash && this.cookies == cookies
      ensures cookieParams == store.cookieParams && csrfToken == None && deletedCookies == []
      ensures Valid()
    {
      this.store := store;
      this.randval := randval;
      this.hash := hash;
      this.cookies := cookies;
      cookieParams := store.cookieParams;
      csrfToken := None;
      deletedCookies := [];
    }

    /** `newSegment(name)`: a new view object; every segment of one name
        reaches the same `$_SESSION` entries. */
    method NewSegment(name: Key) returns (seg: Segment)
      ensures fresh(seg) && seg.session == this && seg.name == name
    {
      seg := new Segment(this, name);
    }

    /** `isAvailable()`: it decides whether `resume()` can start a session;
        without it, and without a started session, `resume()` answers false
        and changes nothing. */
    predicate IsAvailable()
      reads store
      ensures IsAvailable() && CanStart(store.View()) ==> ResumeOk(store.View(), cookies)
      ensures !IsAvailable() && store.status != Active ==>
                !ResumeOk(store.View(), cookies) && Resumed(store.View(), cookies) == store.View()
    {
      Available(store.View(), cookies)
    }

    /** `isStarted()`: when it holds, `resume()` answers true and changes
        nothing; when it does not, `commit()` changes nothing. */
    predicate IsStarted()
      reads store
      ensures IsStarted() ==> ResumeOk(store.View(), cookies) && Resumed(store.View(), cookies) == store.View()
      ensures !IsStarted() ==> WrittenClosed(store.View()) == store.View()
    {
      store.status == Active
    }

    /** `start()`: success leaves the session started. */
    method Start() returns (ok: bool)
      modifies store
      ensures ok == StartOk(old(store.View())) && store.View() == Started(old(store.View()))
      ensures ok <==> IsStarted()
    {
      ok := store.SessionStart();
    }

    /** `resume()`. */
    method Resume() returns (ok: bool)
      modifies store
      ensures ok == ResumeOk(old(store.View()), cookies)
      ensures store.View() == Resumed(old(store.View()), cookies)
      ensures ok <==> IsStarted()
    {
      if IsStarted() {
        return true;
      }
      if IsAvailable() {
        ok := Start();
        return;
      }
      return false;
    }

    /** `clear()`: every session variable of every segment is gone. */
    method Clear() returns (ok: bool)
      modifies store
      ensures ok == UnsetOk(old(store.View())) && store.View() == Unset(old(store.View()))
      ensures old(IsStarted()) ==> store.data == map[]
    {
      ok := store.SessionUnset();
    }

    /** `commit()`: the data is written and the session is no longer started. */
    method Commit() returns (ok: bool)
      modifies store
      ensures ok == WriteCloseOk(old(store.View())) && store.View() == WrittenClosed(old(store.View()))
      ensures !IsStarted()
    {
      ok := store.SessionWriteClose();
    }

    /** `destroy()`: start if needed, capture the name and the cookie
        parameters, clear, destroy, and call the cookie deleter once, with
        the captured name, path and domain, exactly when destroying worked. */
    method Destroy() returns (destroyed: bool)
      modifies store, this`deletedCookies
      ensures destroyed == SessionDestroyOk(old(store.View()))
      ensures store.View() == SessionDestroyed(old(store.View()))
      ensures !IsStarted()
      ensures deletedCookies == old(deletedCookies) +
                if destroyed then [CookieDeletion(old(store.name), Lookup(cookieParams, "path"), Lookup(cookieParams, "domain"))]
                else []
    {
      if !IsStarted() {
        var started := Start();
      }
      var name := store.name;
      var params := GetCookieParams();
      var cleared := Clear();
      destroyed := store.SessionDestroy();
      if destroyed {
        deletedCookies := deletedCookies + [CookieDeletion(name, Lookup(params, "path"), Lookup(params, "domain"))];
      }
    }

    /** `getCsrfToken()`: the first call creates the token over segment
        `Aura\Session\CsrfToken`; later calls return that same object. */
    method GetCsrfToken() returns (t: CsrfToken)
      requires Valid()
      modifies this`csrfToken
      ensures Valid() && csrfToken == Some(t)
      ensures old(csrfToken).Some? ==> t == old(csrfToken).value
      ensures old(csrfToken).None? ==> fresh(t) && fresh(t.segment)
      ensures t.segment.session == this && t.segment.name == CSRF_SEGMENT
      ensures Ordinary(t.segment.name)
    {
      CsrfSegmentIsOrdinary();
      if csrfToken.None? {
        var seg := NewSegment(CSRF_SEGMENT);
        var token := new CsrfToken(seg, randval, hash);
        csrfToken := Some(token);
      }
      t := csrfToken.value;
    }

    /** `getCookieParams()`. */
    function GetCookieParams(): map<Key, Value>
      reads this
    {
      cookieParams
    }

    /** `setCookieParams(params)`: the given keys override the current
        parameters, the others keep their values, and the five merged
        parameters are handed to `session_set_cookie_params`, which refuses
        them while a session is active; the answer is ignored, so the
        object's own parameters change in either case. */
    method SetCookieParams(params: map<Key, Value>)
      modifies this`cookieParams, store
      ensures GetCookieParams() == Merge(old(GetCookieParams()), params)
      ensures store.View() == CookieParamsSet(old(store.View()), CookieParamRecord(
                Lookup(cookieParams, "lifetime"), Lookup(cookieParams, "path"), Lookup(cookieParams, "domain"),
                Lookup(cookieParams, "secure"), Lookup(cookieParams, "httponly")))
    {
      cookieParams := Merge(cookieParams, params);
      var sent := store.SessionSetCookieParams(
        Lookup(cookieParams, "lifetime"), Lookup(cookieParams, "path"), Lookup(cookieParams, "domain"),
        Lookup(cookieParams, "secure"), Lookup(cookieParams, "httponly"));
    }

    /** `regenerateId()`: the result is that of `session_regenerate_id(true)`;
        the default token value is regenerated exactly when that worked and a
        token already exists, and no token is ever created. A failure leaves
        no session started. */
    method RegenerateId() returns (result: bool)
      requires Valid()
      modifies store, randval
      ensures result == RegenerateOk(old(store.View()))
      ensures !result ==> !IsStarted()
      ensures !result || csrfToken.None? ==>
                store.View() == Regenerated(old(store.View())) && randval.calls == old(randval.calls)
      ensures result && csrfToken.Some? ==> randval.calls == old(randval.calls) + 1
      ensures result && csrfToken.Some? ==>
                store.View() == RegeneratedState(Regenerated(old(store.View())), cookies, CSRF_SEGMENT, "value",
                                                    Str(csrfToken.value.hash(randval.outputs(old(randval.calls)))))
    {
      result := store.SessionRegenerateId();
      if result && csrfToken.Some? {
        var token := csrfToken.value;
        var v := token.RegenerateValue("value");
      }
    }
  }

  /** A named view onto `$_SESSION[name]` and the segment's two flash buckets. */
  class Segment {
    const session: Session
    const name: Key

    constructor (session: Session, name: Key)
      ensures this.session == session && this.name == name
    {
      this.session := session;
      this.name := name;
    }

    /** `get(key, alt)`. */
    method Get(key: Key, alt: Value) returns (r: Value)
      modifies session.store
      ensures session.store.View() == SegmentResumed(old(session.store.View()), session.cookies, name)
      ensures r == GetKey(session.store.data, name, key, alt)
    {
      var ok := ResumeSession();
      r := GetKey(session.store.data, name, key, alt);
    }

    /** `getSegment()`. */
    method GetSegment() returns (r: Value)
      modifies session.store
      ensures session.store.View() == SegmentResumed(old(session.store.View()), session.cookies, name)
      ensures r == SegmentValue(session.store.data, name)
    {
      var ok := ResumeSession();
      r := SegmentValue(session.store.data, name);
    }

    /** `set(key, val)`. */
    method Set(key: Key, val: Value)
      modifies session.store
      ensures session.store.View() == AfterEdit(old(session.store.View()), session.cookies, name, SetValue(key, val))
    {
      ghost var s0 := session.store.View();
      SetEffect(s0, session.cookies, name, key, val);
      ResumeOrStartSession();
      session.store.data := SetKey(session.store.data, name, key, val);
    }

    /** `clear()`. */
    method Clear()
      modifies session.store
      ensures session.store.View() == AfterEdit(old(session.store.View()), session.cookies, name, ClearAll)
    {
      ghost var s0 := session.store.View();
      ClearEffect(s0, session.cookies, name);
      var ok := ResumeSession();
      if ok {
        session.store.data := ClearSegment(session.store.data, name);
      }
    }

    /** `remove(key)`, `None` standing for the default null argument. */
    method Remove(key: Option<Key>)
      modifies session.store
      ensures session.store.View() == AfterEdit(old(session.store.View()), session.cookies, name, RemoveEntry(key))
    {
      ghost var s0 := session.store.View();
      RemoveEffect(s0, session.cookies, name, key);
      var ok := ResumeSession();
      if ok {
        session.store.data := RemoveKey(session.store.data, name, key);
      }
    }

    /** `setFlash(key, val)`. */
    method SetFlash(key: Key, val: Value)
      modifies session.store
      ensures session.store.View() == AfterEdit(old(session.store.View()), session.cookies, name, FlashNext(key, val))
    {
      ghost var s0 := session.store.View();
      FlashNextEffect(s0, session.cookies, name, key, val);
      ResumeOrStartSession();
      session.store.data := SetFlashNext(session.store.data, name, key, val);
    }

    /** `getFlash(key, alt)`: reads the current request's bucket. */
    method GetFlash(key: Key, alt: Value) returns (r: Value)
      modifies session.store
      ensures session.store.View() == SegmentResumed(old(session.store.View()), session.cookies, name)
      ensures r == GetFlashKey(session.store.data, FLASH_NOW, name, key, alt)
    {
      var ok := ResumeSession();
      r := GetFlashKey(session.store.data, FLASH_NOW, name, key, alt);
    }

    /** `clearFlash()`. */
    method ClearFlash()
      modifies session.store
      ensures session.store.View() == AfterEdit(old(session.store.View()), session.cookies, name, ClearNext)
    {
      ghost var s0 := session.store.View();
      ClearNextEffect(s0, session.cookies, name);
      var ok := ResumeSession();
      if ok {
        session.store.data := ClearFlashNext(session.store.data, name);
      }
    }

    /** `getFlashNext(key, alt)`: reads the next request's bucket. */
    method GetFlashNext(key: Key, alt: Value) returns (r: Value)
      modifies session.store
      ensures session.store.View() == SegmentResumed(old(session.store.View()), session.cookies, name)
      ensures r == GetFlashKey(session.store.data, FLASH_NEXT, name, key, alt)
    {
      var ok := ResumeSession();
      r := GetFlashKey(session.store.data, FLASH_NEXT, name, key, alt);
    }

    /** `setFlashNow(key, val)`. */
    method SetFlashNow(key: Key, val: Value)
      modifies session.store
      ensures session.store.View() == AfterEdit(old(session.store.View()), session.cookies, name, FlashBoth(key, val))
    {
      ghost var s0 := session.store.View();
      FlashBothEffect(s0, session.cookies, name, key, val);
      ResumeOrStartSession();
      session.store.data := SetFlashBoth(session.store.data, name, key, val);
    }

    /** `clearFlashNow()`. */
    method ClearFlashNow()
      modifies session.store
      ensures session.store.View() == AfterEdit(old(session.store.View()), session.cookies, name, ClearBoth)
    {
      ghost var s0 := session.store.View();
      ClearBothEffect(s0, session.cookies, name);
      var ok := ResumeSession();
      if ok {
        session.store.data := ClearFlashBoth(session.store.data, name);
      }
    }

    /** `keepFlash()`. */
    method KeepFlash()
      modifies session.store
      ensures session.store.View() == AfterEdit(old(session.store.View()), session.cookies, name, KeepCurrent)
    {
      ghost var s0 := session.store.View();
      KeepEffect(s0, session.cookies, name);
      var ok := ResumeSession();
      if ok {
        session.store.data := SegmentData.KeepFlash(session.store.data, name);
      }
    }

    /** `resumeSession()`: resume, and load this segment when that worked. */
    method ResumeSession() returns (ok: bool)
      modifies session.store
      ensures ok == ResumeOk(old(session.store.View()), session.cookies)
      ensures session.store.View() == SegmentResumed(old(session.store.View()), session.cookies, name)
    {
      ok := session.IsStarted();
      if !ok {
        ok := session.Resume();
      }
      if ok {
        Load();
      }
    }

    /** `load()`: create this segment's missing containers. */
    method Load()
      modifies session.store
      ensures session.store.View() == old(session.store.View()).(data := SegmentData.Load(old(session.store.data), name))
    {
      if !IsSet(Lookup(session.store.data, name)) {
        session.store.data := session.store.data[name := Arr(map[])];
      }
      session.store.data := InitBucket(session.store.data, FLASH_NOW, name);
      session.store.data := InitBucket(session.store.data, FLASH_NEXT, name);
    }

    /** `resumeOrStartSession()`: resume, or else start and load. */
    method ResumeOrStartSession()
      modifies session.store
      ensures session.store.View() == SegmentStarted(old(session.store.View()), session.cookies, name)
    {
      var ok := ResumeSession();
      if !ok {
        var started := session.Start();
        Load();
      }
    }
  }

  /** The CSRF token of src/CsrfToken.php: any number of values, each under
      its own key of the token's segment. */
  class CsrfToken {
    const segment: Segment
    const randval: Randval
    /** `hash('sha512', ·)`. */
    const hash: string -> string

    constructor (segment: Segment, randval: Randval, hash: string -> string)
      ensures this.segment == segment && this.randval == randval && this.hash == hash
    {
      this.segment := segment;
      this.randval := randval;
      this.hash := hash;
    }

    /** `isValid(value, key)`: the value equals the current value for `key`,
        which is created first when missing. */
    method IsValid(value: string, key: Key) returns (ok: bool)
      modifies segment.session.store, randval
      ensures randval.calls == old(randval.calls) +
                if NeedsValue(old(segment.session.store.View()), segment.session.cookies, segment.name, key) then 1 else 0
      ensures segment.session.store.View() ==
                TokenState(old(segment.session.store.View()), segment.session.cookies, segment.name, key,
                           Str(hash(randval.outputs(old(randval.calls)))))
      ensures ok <==> Str(value) == TokenValue(old(segment.session.store.View()), segment.session.cookies, segment.name, key,
                                               Str(hash(randval.outputs(old(randval.calls)))))
    {
      var current := GetValue(key);
      ok := Str(value) == current;
    }

    /** `getValue(key)`: the stored value, after storing a new one when the
        stored value is loosely null. */
    method GetValue(key: Key) returns (r: Value)
      modifies segment.session.store, randval
      ensures randval.calls == old(randval.calls) +
                if NeedsValue(old(segment.session.store.View()), segment.session.cookies, segment.name, key) then 1 else 0
      ensures segment.session.store.View() ==
                TokenState(old(segment.session.store.View()), segment.session.cookies, segment.name, key,
                           Str(hash(randval.outputs(old(randval.calls)))))
      ensures r == TokenValue(old(segment.session.store.View()), segment.session.cookies, segment.name, key,
                              Str(hash(randval.outputs(old(randval.calls)))))
    {
      var current := segment.Get(key, Null);
      if LooselyNull(current) {
        var v := RegenerateValue(key);
      }
      r := segment.Get(key, Null);
    }

    /** `regenerateValue(key)`: store the hash of one new random value under
        `key` and return what is stored there. */
    method RegenerateValue(key: Key) returns (r: Value)
      modifies segment.session.store, randval
      ensures randval.calls == old(randval.calls) + 1
      ensures segment.session.store.View() ==
                RegeneratedState(old(segment.session.store.View()), segment.session.cookies, segment.name, key,
                                 Str(hash(randval.outputs(old(randval.calls)))))
      ensures r == RegeneratedValue(old(segment.session.store.View()), segment.session.cookies, segment.name, key,
                                    Str(hash(randval.outputs(old(randval.calls)))))
    {
      var raw := randval.Generate();
      segment.Set(key, Str(hash(raw)));
      r := segment.Get(key, Null);
    }

    /** `regenerateAllKeyValues()`: one new value for every key the token
        segment holds, each drawn once from the random source. On a settled
        store (an active session, or one that cannot start) the key set stays
        the same, every key ends with one of the values drawn in this call,
        and no other segment changes; with no keys nothing but the resume
        happens. */
    method RegenerateAllKeyValues()
      modifies segment.session.store, randval
      ensures randval.calls == old(randval.calls) + |TokenKeys(old(segment.session.store.View()), segment.session.cookies, segment.name)|
      ensures TokenKeys(old(segment.session.store.View()), segment.session.cookies, segment.name) == {} ==>
                segment.session.store.View() == SegmentResumed(old(segment.session.store.View()), segment.session.cookies, segment.name)
      ensures Ordinary(segment.name) && Settled(old(segment.session.store.View())) ==>
                RegeneratedKeys(segment.session.store.View(),
                                SegmentResumed(old(segment.session.store.View()), segment.session.cookies, segment.name),
                                segment.name,
                                TokenKeys(old(segment.session.store.View()), segment.session.cookies, segment.name),
                                randval.outputs, hash, old(randval.calls), randval.calls)
    {
      ghost var s0 := segment.session.store.View();
      var seg := segment.GetSegment();
      if Ordinary(segment.name) && Settled(s0) {
        EditOnSettled(s0, segment.session.cookies, segment.name, ClearAll);
      }
      if Truthy(seg) {
        RegenerateEach(Entries(seg).Keys);
      } else {
        assert TokenKeys(s0, segment.session.cookies, segment.name) == {};
      }
    }

    /** The `foreach` of `regenerateAllKeyValues()`: `regenerateValue` once
        for each key of `keys`, in some order (`SessionFlow.RegenerateInOrder`
        gives the outcome for a given order). */
    method RegenerateEach(keys: set<Key>)
      modifies segment.session.store, randval
      ensures randval.calls == old(randval.calls) + |keys|
      ensures keys == {} ==> segment.session.store.View() == old(segment.session.store.View())
      ensures Ordinary(segment.name) && Settled(old(segment.session.store.View())) &&
              keys <= Partition(old(segment.session.store.data), segment.name).Keys ==>
                RegeneratedKeys(segment.session.store.View(), old(segment.session.store.View()), segment.name, keys,
                                randval.outputs, hash, old(randval.calls), randval.calls)
    {
      var st := segment.session.store;
      ghost var s1 := st.View();
      ghost var c0 := randval.calls;
      ghost var p := Ordinary(segment.name) && Settled(s1) && keys <= Partition(s1.data, segment.name).Keys;
      if p {
        RegeneratedNone(s1, segment.name, randval.outputs, hash, c0);
      }
      var todo := keys;
      while todo != {}
        invariant todo <= keys
        invariant randval.calls == c0 + |keys - todo|
        invariant todo == keys ==> st.View() == s1
        invariant p ==> RegeneratedKeys(st.View(), s1, segment.name, keys - todo, randval.outputs, hash, c0, randval.calls)
        decreases todo
      {
        var k :| k in todo;
        TakeOne(keys, todo, k);
        RegenerateKey(k, s1, keys - todo, c0);
        todo := todo - {k};
      }
    }

    /** One pass of that `foreach`, `regenerateValue(k)`, tracked against
        the progress made so far. */
    method RegenerateKey(k: Key, ghost s1: StoreState, ghost done: set<Key>, ghost lo: nat)
      modifies segment.session.store, randval
      ensures randval.calls == old(randval.calls) + 1
      ensures Ordinary(segment.name) && lo <= old(randval.calls) && k in Partition(s1.data, segment.name) &&
              old(RegeneratedKeys(segment.session.store.View(), s1, segment.name, done, randval.outputs, hash, lo, randval.calls)) ==>
                RegeneratedKeys(segment.session.store.View(), s1, segment.name, done + {k}, randval.outputs, hash, lo, randval.calls)
    {
      ghost var before := segment.session.store.View();
      ghost var draw := randval.calls;
      var v := RegenerateValue(k);
      if Ordinary(segment.name) && lo <= draw && k in Partition(s1.data, segment.name) &&
         RegeneratedKeys(before, s1, segment.name, done, randval.outputs, hash, lo, draw) {
        RegeneratedKeysStep(before, s1, segment.session.cookies, segment.name, done, k, randval.outputs, hash, lo, draw);
      }
    }
  }

  /** Moving one key from the keys still to visit to the keys visited. */
  lemma TakeOne(keys: set<Key>, todo: set<Key>, k: Key)
    requires todo <= keys && k in todo
    ensures keys - (todo - {k}) == (keys - todo) + {k} && k !in keys - todo
    ensures |keys - (todo - {k})| == |keys - todo| + 1
  {
    assert keys - (todo - {k}) == (keys - todo) + {k};
  }

  /** Two segment objects of one name share their data: a value set through
      one is read back through the other. */
  method SameNameSegmentsShare(a: Segment, b: Segment, key: Key, val: Value, alt: Value) returns (r: Value)
    requires a.session == b.session && a.name == b.name && Ordinary(a.name)
    modifies a.session.store
    ensures r == if IsSet(val) then val else alt
  {
    ghost var s0 := a.session.store.View();
    a.Set(key, val);
    r := b.Get(key, alt);
    SetThenGet(s0, a.session.cookies, a.name, key, val, alt);
  }
}
