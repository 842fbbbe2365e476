/** The legacy session manager of src/Aura/Session/Manager.php, over the same
    Store as the current generation. Unlike the current manager it never
    starts a session on its own: `destroy()` only clears and destroys. */
module LegacyManager {
  import opened PhpValues
  import opened Environment
  import opened SessionFlow
  import LegacySegment

  class Manager {
    const store: Store
    /** The incoming cookies, a copy of `$_COOKIE`. */
    const cookies: map<Key, Value>
    /** The random source and hash handed to the CSRF token factory. */
    const randval: Randval
    const hash: string -> string
    var cookieParams: map<Key, Value>
    /** The CSRF token, created on first request. */
    var csrfToken: Option<LegacySegment.CsrfToken>

    /** The cached token, when there is one, is named after the CSRF segment
        and draws from this manager's random source. */
    predicate Valid()
      reads this
    {
      csrfToken.Some? ==>
        && csrfToken.value.segment.name == CSRF_SEGMENT
        && csrfToken.value.randval == randval
    }

    /** The array the cached token writes to, if there is a token. */
    function TokenBags(): set<object>
      reads this
    {
      if csrfToken.Some? then {csrfToken.value.segment.bag} else {}
    }

    /** The cookie parameters start as `session_get_cookie_params()`. */
    constructor (store: Store, randval: Randval, hash: string -> string, cookies: map<Key, Value>)
      ensures this.store == store && this.randval == randval && this.hash == hash && this.cookies == cookies
      ensures cookieParams == store.cookieParams && csrfToken == None
      ensures Valid()
    {
      this.store := store;
      this.randval := randval;
      this.hash := hash;
      this.cookies := cookies;
      cookieParams := store.cookieParams;
      csrfToken := None;
    }

    /** `isAvailable()`: the client sent a cookie named after the session. */
    predicate IsAvailable()
      reads store
    {
      Available(store.View(), cookies)
    }

    /** `isStarted()`: when it does not hold, `commit()` and `destroy()`
        change nothing. */
    predicate IsStarted()
      reads store
      ensures !IsStarted() ==> WrittenClosed(store.View()) == store.View() && LegacyDestroyed(store.View()) == store.View()
    {
      store.status == Active
    }

    /** `start()`: success leaves the session started. */
    method Start() returns (ok: bool)
      modifies store
      ensures ok == StartOk(old(store.View())) && store.View() == Started(old(store.View()))
      ensures ok <==> IsStarted()
    {
      ok := store.SessionStart();
    }

    /** `clear()`: every session variable of every segment is gone. */
    method Clear() returns (ok: bool)
      modifies store
      ensures ok == UnsetOk(old(store.View())) && store.View() == Unset(old(store.View()))
      ensures old(IsStarted()) ==> store.data == map[]
    {
      ok := store.SessionUnset();
    }

    /** `commit()`: the data is written and the session is no longer started. */
    method Commit() returns (ok: bool)
      modifies store
      ensures ok == WriteCloseOk(old(store.View())) && store.View() == WrittenClosed(old(store.View()))
      ensures !IsStarted()
    {
      ok := store.SessionWriteClose();
    }

    /** `destroy()`: clear, then destroy. Afterwards no session is started,
        and one that was active is empty; an inactive session is left as it
        is and the call answers false. */
    method Destroy() returns (destroyed: bool)
      modifies store
      ensures destroyed == LegacyDestroyOk(old(store.View()))
      ensures store.View() == LegacyDestroyed(old(store.View()))
      ensures destroyed <==> old(IsStarted()) && old(store.handlerOk)
      ensures !IsStarted()
      ensures old(IsStarted()) ==> store.data == map[]
    {
      var cleared := Clear();
      destroyed := store.SessionDestroy();
    }

    /** `getCsrfToken()`: the first call creates the token over a segment
        named `Aura\Session\CsrfToken` bound to `bag`, which stores a new
        value there unless one is set; later calls return the same object
        and change nothing. */
    method GetCsrfToken(bag: LegacySegment.Bag) returns (t: LegacySegment.CsrfToken)
      requires Valid()
      modifies this`csrfToken, bag, randval
      ensures Valid() && csrfToken == Some(t)
      ensures old(csrfToken).Some? ==>
                t == old(csrfToken).value && bag.data == old(bag.data) && randval.calls == old(randval.calls)
      ensures old(csrfToken).None? ==> fresh(t) && t.segment.bag == bag && IsSet(Lookup(bag.data, "value"))
    {
      if csrfToken.None? {
        var seg := new LegacySegment.Segment(CSRF_SEGMENT, bag);
        var token := new LegacySegment.CsrfToken(seg, randval, hash);
        csrfToken := Some(token);
      }
      t := csrfToken.value;
    }

    /** `getCookieParams()`. */
    function GetCookieParams(): map<Key, Value>
      reads this
    {
      cookieParams
    }

    /** `setCookieParams(params)`: the given keys override the current
        parameters, the others keep their values, and the five merged
        parameters are handed to `session_set_cookie_params`, which refuses
        them while a session is active; the answer is ignored, so the
        object's own parameters change in either case. */
    method SetCookieParams(params: map<Key, Value>)
      modifies this`cookieParams, store
      ensures GetCookieParams() == Merge(old(GetCookieParams()), params)
      ensures store.View() == CookieParamsSet(old(store.View()), CookieParamRecord(
                Lookup(cookieParams, "lifetime"), Lookup(cookieParams, "path"), Lookup(cookieParams, "domain"),
                Lookup(cookieParams, "secure"), Lookup(cookieParams, "httponly")))
    {
      cookieParams := Merge(cookieParams, params);
      var sent := store.SessionSetCookieParams(
        Lookup(cookieParams, "lifetime"), Lookup(cookieParams, "path"), Lookup(cookieParams, "domain"),
        Lookup(cookieParams, "secure"), Lookup(cookieParams, "httponly"));
    }

    /** `regenerateId()`: the result is that of `session_regenerate_id(true)`;
        the token value is replaced exactly when that worked and a token
        exists. A failure leaves no session started. */
    method RegenerateId() returns (result: bool)
      requires Valid()
      modifies store, randval, TokenBags()
      ensures result == RegenerateOk(old(store.View())) && store.View() == Regenerated(old(store.View()))
      ensures !result ==> !IsStarted()
      ensures !result || csrfToken.None? ==> randval.calls == old(randval.calls)
      ensures csrfToken.Some? && !result ==>
                csrfToken.value.segment.bag.data == old(csrfToken.value.segment.bag.data)
      ensures csrfToken.Some? && result ==>
                && randval.calls == old(randval.calls) + 1
                && csrfToken.value.segment.bag.data ==
                   old(csrfToken.value.segment.bag.data)["value" := Str(csrfToken.value.hash(randval.outputs(old(randval.calls))))]
    {
      result := store.SessionRegenerateId();
      if result && csrfToken.Some? {
        csrfToken.value.RegenerateValue();
      }
    }
  }
}
