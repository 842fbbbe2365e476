/** The external collaborators of the session code: PHP's session extension
    together with the `$_SESSION` array it fills (class Store), and the
    secure random source (class Randval).

    The store is a small state machine. Its status is PHP_SESSION_DISABLED,
    PHP_SESSION_NONE or PHP_SESSION_ACTIVE; `handlerOk` says whether the save
    handler currently reports success, which decides the outcome of
    `session_start`, `session_destroy` and `session_regenerate_id` beyond what
    the status already decides, and whether `session_write_close` and
    `session_destroy` reach the record; `saved` is the handler's record for
    the current session id, which a real start copies into `$_SESSION`.
    `session_set_cookie_params` refuses while a session is active, as it
    does since PHP 7.2. Each
    session function is a pure transition on StoreState, below, and a
    method of Store that performs it. */
module Environment {
  import opened PhpValues

  /** `session_status()`. */
  datatype Status = Disabled | NoSession | Active

  datatype StoreState = StoreState(
    status: Status,
    handlerOk: bool,
    name: Key,
    id: nat,
    data: map<Key, Value>,
    saved: map<Key, Value>,
    cookieParams: map<Key, Value>)

  /** Whether a `session_start` from an inactive state can succeed. */
  predicate CanStart(s: StoreState) {
    s.status != Disabled && s.handlerOk
  }

  /** The result of `session_start()`: true when a session is already
      active (the call is then ignored) or one can be started. */
  function StartOk(s: StoreState): bool {
    s.status == Active || CanStart(s)
  }

  /** The store after `session_start()`: a real start activates the session
      and loads the handler's record into `$_SESSION`. */
  function Started(s: StoreState): (r: StoreState)
    ensures StartOk(s) <==> r.status == Active
    ensures !StartOk(s) || s.status == Active ==> r == s
    ensures r.name == s.name && r.id == s.id && r.handlerOk == s.handlerOk
    ensures r.saved == s.saved && r.cookieParams == s.cookieParams
    ensures s.status != Active && StartOk(s) ==> r.data == s.saved
  {
    if s.status != Active && CanStart(s) then s.(status := Active, data := s.saved) else s
  }

  /** The result of `session_unset()`: it works only on an active session. */
  function UnsetOk(s: StoreState): bool {
    s.status == Active
  }

  /** The store after `session_unset()`: every session variable is gone. */
  function Unset(s: StoreState): (r: StoreState)
    ensures s.status == Active ==> r.data == map[]
    ensures s.status != Active ==> r == s
    ensures r.status == s.status && r.saved == s.saved && r.name == s.name
    ensures r.cookieParams == s.cookieParams && r.id == s.id && r.handlerOk == s.handlerOk
  {
    if UnsetOk(s) then s.(data := map[]) else s
  }

  /** The result of `session_write_close()`. */
  function WriteCloseOk(s: StoreState): bool {
    s.status == Active
  }

  /** The store after `session_write_close()`: the data is written to the
      handler's record when the handler works, and the session is no longer
      active either way (a failed write only warns, and the call still
      answers true). */
  function WrittenClosed(s: StoreState): (r: StoreState)
    ensures r.status != Active
    ensures s.status == Active ==> r.status == NoSession
    ensures s.status == Active && s.handlerOk ==> r.saved == s.data
    ensures !s.handlerOk ==> r.saved == s.saved
    ensures r.data == s.data && r.name == s.name && r.id == s.id
    ensures r.handlerOk == s.handlerOk && r.cookieParams == s.cookieParams
    ensures s.status != Active ==> r == s
  {
    if WriteCloseOk(s) then s.(status := NoSession, saved := if s.handlerOk then s.data else s.saved) else s
  }

  /** The result of `session_destroy()`: an active session whose handler
      can delete its record. */
  function DestroyOk(s: StoreState): bool {
    s.status == Active && s.handlerOk
  }

  /** The store after `session_destroy()`: an active session always ends,
      and its record is gone when the handler could delete it (a failing
      handler only makes the call answer false); `$_SESSION` itself is left
      to `session_unset`. Without an active session nothing happens. */
  function Destroyed(s: StoreState): (r: StoreState)
    ensures s.status == Active ==> r.status == NoSession
    ensures DestroyOk(s) ==> r.saved == map[]
    ensures !s.handlerOk ==> r.saved == s.saved
    ensures r.data == s.data && r.name == s.name && r.id == s.id
    ensures r.handlerOk == s.handlerOk && r.cookieParams == s.cookieParams
    ensures s.status != Active ==> r == s
  {
    if s.status == Active then s.(status := NoSession, saved := if s.handlerOk then map[] else s.saved) else s
  }

  /** The result of `session_regenerate_id(true)`. */
  function RegenerateOk(s: StoreState): bool {
    s.status == Active && s.handlerOk
  }

  /** The store after `session_regenerate_id(true)`. On success the session
      stays active under a new id that differs from the old one and keeps
      `$_SESSION`; the old id's record is deleted and the new id has none
      until the session is written. When the handler cannot delete the old
      record the session ends (status none) and the record stays. Without an
      active session nothing changes. */
  function Regenerated(s: StoreState): (r: StoreState)
    ensures RegenerateOk(s) ==> r.id != s.id && r.saved == map[] && r == s.(id := r.id, saved := r.saved)
    ensures s.status == Active && !s.handlerOk ==> r == s.(status := NoSession)
    ensures s.status != Active ==> r == s
  {
    if RegenerateOk(s) then s.(id := s.id + 1, saved := map[])
    else if s.status == Active then s.(status := NoSession)
    else s
  }

  /** Committing and then starting again gives back the committed data. */
  lemma CommitThenStartRestores(s: StoreState)
    requires s.status == Active && s.handlerOk
    ensures Started(WrittenClosed(s)).status == Active
    ensures Started(WrittenClosed(s)).data == s.data
  {
    var c := WrittenClosed(s);
    assert c.status == NoSession && c.saved == s.data && c.handlerOk;
  }

  /** A write-close with a failing handler keeps the old record: once the
      handler works again, a new start brings back the record from before,
      not the data that could not be written. */
  lemma FailedCommitKeepsRecord(s: StoreState)
    requires s.status == Active && !s.handlerOk
    ensures WrittenClosed(s).status == NoSession
    ensures Started(WrittenClosed(s).(handlerOk := true)).data == s.saved
  {
    var c := WrittenClosed(s);
    assert c.status == NoSession && c.saved == s.saved;
  }

  /** After a successful destroy, a new start begins with empty data. */
  lemma DestroyThenStartIsEmpty(s: StoreState)
    requires DestroyOk(s)
    ensures Started(Destroyed(s)).status == Active
    ensures Started(Destroyed(s)).data == map[]
  {
    var d := Destroyed(s);
    assert d.status == NoSession && d.handlerOk && d.saved == map[];
  }

  /** The session extension and `$_SESSION`, as one mutable object. */
  class Store {
    var status: Status
    var handlerOk: bool
    var name: Key
    var id: nat
    var data: map<Key, Value>
    var saved: map<Key, Value>
    var cookieParams: map<Key, Value>

    function View(): StoreState
      reads this
    {
      StoreState(status, handlerOk, name, id, data, saved, cookieParams)
    }

    constructor (init: StoreState)
      ensures View() == init
    {
      status, handlerOk, name, id := init.status, init.handlerOk, init.name, init.id;
      data, saved, cookieParams := init.data, init.saved, init.cookieParams;
    }

    /** Replaces every field by the given state. */
    method Become(s: StoreState)
      modifies this
      ensures View() == s
    {
      status, handlerOk, name, id := s.status, s.handlerOk, s.name, s.id;
      data, saved, cookieParams := s.data, s.saved, s.cookieParams;
    }

    method SessionStart() returns (ok: bool)
      modifies this
      ensures ok == StartOk(old(View())) && View() == Started(old(View()))
    {
      ok := StartOk(View());
      Become(Started(View()));
    }

    method SessionUnset() returns (ok: bool)
      modifies this
      ensures ok == UnsetOk(old(View())) && View() == Unset(old(View()))
    {
      ok := status == Active;
      if ok {
        data := map[];
      }
    }

    method SessionWriteClose() returns (ok: bool)
      modifies this
      ensures ok == WriteCloseOk(old(View())) && View() == WrittenClosed(old(View()))
    {
      ok := status == Active;
      if ok {
        if handlerOk {
          saved := data;
        }
        status := NoSession;
      }
    }

    method SessionDestroy() returns (ok: bool)
      modifies this
      ensures ok == DestroyOk(old(View())) && View() == Destroyed(old(View()))
    {
      ok := status == Active && handlerOk;
      if status == Active {
        if handlerOk {
          saved := map[];
        }
        status := NoSession;
      }
    }

    method SessionRegenerateId() returns (ok: bool)
      modifies this
      ensures ok == RegenerateOk(old(View())) && View() == Regenerated(old(View()))
    {
      ok := status == Active && handlerOk;
      if ok {
        id := id + 1;
        saved := map[];
      } else if status == Active {
        status := NoSession;
      }
    }

    /** `session_set_cookie_params(lifetime, path, domain, secure, httponly)`. */
    method SessionSetCookieParams(lifetime: Value, path: Value, domain: Value, secure: Value, httponly: Value) returns (ok: bool)
      modifies this
      ensures ok == CookieParamsOk(old(View()))
      ensures View() == CookieParamsSet(old(View()), CookieParamRecord(lifetime, path, domain, secure, httponly))
    {
      ok := status != Active;
      if ok {
        cookieParams := CookieParamRecord(lifetime, path, domain, secure, httponly);
      }
    }
  }

  /** The array `session_get_cookie_params()` reports after a call to
      `session_set_cookie_params` with these five arguments. */
  function CookieParamRecord(lifetime: Value, path: Value, domain: Value, secure: Value, httponly: Value): map<Key, Value> {
    map["lifetime" := lifetime, "path" := path, "domain" := domain, "secure" := secure, "httponly" := httponly]
  }

  /** The result of `session_set_cookie_params()`: false while a session is
      active. */
  function CookieParamsOk(s: StoreState): bool {
    s.status != Active
  }

  /** The store after `session_set_cookie_params()` with the record `p`:
      outside an active session the parameters become `p` and nothing else
      changes; during one the call is refused and nothing changes at all. */
  function CookieParamsSet(s: StoreState, p: map<Key, Value>): (r: StoreState)
    ensures s.status != Active ==> r.cookieParams == p && r == s.(cookieParams := r.cookieParams)
    ensures s.status == Active ==> r == s
  {
    if CookieParamsOk(s) then s.(cookieParams := p) else s
  }

  /** The secure random source: an arbitrary stream of outputs, one per call
      of `generate()`. */
  class Randval {
    const outputs: nat -> string
    var calls: nat

    constructor (outputs: nat -> string)
      ensures this.outputs == outputs && calls == 0
    {
      this.outputs := outputs;
      calls := 0;
    }

    method Generate() returns (r: string)
      modifies this
      ensures r == outputs(old(calls)) && calls == old(calls) + 1
    {
      r := outputs(calls);
      calls := calls + 1;
    }
  }
}
