/** How the session manager, a segment and a CSRF token drive the store,
    as functions from the store's state (and the incoming cookies) to the
    state after the call. The classes of src/Session.php, src/Segment.php and
    src/CsrfToken.php are specified by these functions; the lemmas here are
    the properties those files promise. */
module SessionFlow {
  import opened PhpValues
  import opened Environment
  import opened SegmentData

  /** The segment that holds the CSRF token values. */
  const CSRF_SEGMENT: Key := "Aura\\Session\\CsrfToken"

  /** The CSRF segment is not one of the flash keys. */
  lemma CsrfSegmentIsOrdinary()
    ensures Ordinary(CSRF_SEGMENT)
  {
    assert CSRF_SEGMENT[13] != FLASH_NOW[13];
    assert CSRF_SEGMENT[13] != FLASH_NEXT[13];
  }

  // ---------------------------------------------------------------------
  // Session manager

  /** `isAvailable()`: the client sent a non-null cookie named after the
      current session name. */
  predicate Available(s: StoreState, cookies: map<Key, Value>) {
    IsSet(Lookup(cookies, s.name))
  }

  /** The result of `resume()`. */
  function ResumeOk(s: StoreState, cookies: map<Key, Value>): (ok: bool)
    ensures ok <==> s.status == Active || (Available(s, cookies) && CanStart(s))
  {
    if s.status == Active then true
    else if Available(s, cookies) then StartOk(s)
    else false
  }

  /** The store after `resume()`: an active session stays as it is, a session
      without a cookie is never started, and otherwise the outcome is that
      of `start()`. */
  function Resumed(s: StoreState, cookies: map<Key, Value>): (r: StoreState)
    ensures ResumeOk(s, cookies) <==> r.status == Active
    ensures s.status == Active || !Available(s, cookies) ==> r == s
    ensures s.status != Active && Available(s, cookies) ==> r == Started(s)
    ensures !ResumeOk(s, cookies) ==> r == s
  {
    if s.status == Active then s
    else if Available(s, cookies) then Started(s)
    else s
  }

  /** The result of `destroy()` in src/Session.php: start if needed, clear,
      then destroy. */
  function SessionDestroyOk(s: StoreState): bool {
    DestroyOk(Unset(if s.status != Active then Started(s) else s))
  }

  function SessionDestroyed(s: StoreState): StoreState {
    Destroyed(Unset(if s.status != Active then Started(s) else s))
  }

  /** `destroy()` succeeds exactly when a session is or can be started and
      the handler works. Whenever a session could be addressed it ends
      inactive with no data; its record is gone on success and kept when the
      handler failed; when none could be started nothing changes; the
      session name it reports to the cookie callback is the current one. */
  lemma SessionDestroySpec(s: StoreState)
    ensures SessionDestroyOk(s) <==> StartOk(s) && s.handlerOk
    ensures StartOk(s) ==> SessionDestroyed(s).status == NoSession && SessionDestroyed(s).data == map[]
    ensures SessionDestroyOk(s) ==> SessionDestroyed(s).saved == map[]
    ensures StartOk(s) && !s.handlerOk ==> SessionDestroyed(s).saved == s.saved
    ensures !StartOk(s) ==> SessionDestroyed(s) == s
    ensures SessionDestroyed(s).name == s.name && SessionDestroyed(s).cookieParams == s.cookieParams
  {
    var s1 := if s.status != Active then Started(s) else s;
    assert s1.status == Active <==> StartOk(s);
    assert s1.handlerOk == s.handlerOk;
    var s2 := Unset(s1);
    assert StartOk(s) ==> s2.data == map[];
  }

  /** The result of `destroy()` in src/Aura/Session/Manager.php: clear, then
      destroy, without starting a session. */
  function LegacyDestroyOk(s: StoreState): bool {
    DestroyOk(Unset(s))
  }

  function LegacyDestroyed(s: StoreState): StoreState {
    Destroyed(Unset(s))
  }

  /** The legacy `destroy()` succeeds exactly on an active session with a
      working handler. An active session always ends inactive and empty, its
      record gone on success and kept when the handler failed; on an
      inactive session it changes nothing at all. */
  lemma LegacyDestroySpec(s: StoreState)
    ensures LegacyDestroyOk(s) <==> s.status == Active && s.handlerOk
    ensures s.status == Active ==> LegacyDestroyed(s).status == NoSession && LegacyDestroyed(s).data == map[]
    ensures LegacyDestroyOk(s) ==> LegacyDestroyed(s).saved == map[]
    ensures s.status == Active && !s.handlerOk ==> LegacyDestroyed(s).saved == s.saved
    ensures s.status != Active ==> LegacyDestroyed(s) == s
  {
    var s1 := Unset(s);
    assert s1.status == s.status && s1.handlerOk == s.handlerOk;
  }

  // ---------------------------------------------------------------------
  // Segment

  /** The store after `Segment::resumeSession()`: resume, and load the
      segment's containers when that worked. */
  function SegmentResumed(s: StoreState, cookies: map<Key, Value>, n: Key): (r: StoreState)
    ensures ResumeOk(s, cookies) <==> r.status == Active
    ensures ResumeOk(s, cookies) ==> r == Resumed(s, cookies).(data := Load(Resumed(s, cookies).data, n))
    ensures !ResumeOk(s, cookies) ==> r == s
  {
    var r := Resumed(s, cookies);
    if ResumeOk(s, cookies) then r.(data := Load(r.data, n)) else r
  }

  /** The store after `Segment::resumeOrStartSession()`: resume, or else start
      and load the segment even when the start failed. */
  function SegmentStarted(s: StoreState, cookies: map<Key, Value>, n: Key): (r: StoreState)
    ensures StartOk(s) <==> r.status == Active
  {
    if ResumeOk(s, cookies) then SegmentResumed(s, cookies, n)
    else
      var r := Started(s);
      r.(data := Load(r.data, n))
  }

  /** The changes a segment makes to `$_SESSION`. The writes (set, setFlash,
      setFlashNow) resume or start a session first; the others only resume
      one and do nothing when that fails. */
  datatype Edit =
    | SetValue(key: Key, val: Value)
    | ClearAll
    | RemoveEntry(opt: Option<Key>)
    | FlashNext(key: Key, val: Value)
    | FlashBoth(key: Key, val: Value)
    | ClearNext
    | ClearBoth
    | KeepCurrent

  predicate IsWrite(e: Edit) {
    e.SetValue? || e.FlashNext? || e.FlashBoth?
  }

  function ApplyEdit(d: map<Key, Value>, n: Key, e: Edit): map<Key, Value> {
    match e
    case SetValue(k, v) => SetKey(d, n, k, v)
    case ClearAll => ClearSegment(d, n)
    case RemoveEntry(key) => RemoveKey(d, n, key)
    case FlashNext(k, v) => SetFlashNext(d, n, k, v)
    case FlashBoth(k, v) => SetFlashBoth(d, n, k, v)
    case ClearNext => ClearFlashNext(d, n)
    case ClearBoth => ClearFlashBoth(d, n)
    case KeepCurrent => KeepFlash(d, n)
  }

  /** The store after a segment operation. */
  function AfterEdit(s: StoreState, cookies: map<Key, Value>, n: Key, e: Edit): StoreState {
    if IsWrite(e) then
      var r := SegmentStarted(s, cookies, n);
      r.(data := ApplyEdit(r.data, n, e))
    else if ResumeOk(s, cookies) then
      var r := SegmentResumed(s, cookies, n);
      r.(data := ApplyEdit(r.data, n, e))
    else s
  }

  // Proof hints: each lemma below restates `AfterEdit` for one `Edit`, so
  // that a proof about one operation need not unfold the whole match.

  /** The store a write leaves, for `set`. */
  lemma SetEffect(s: StoreState, cookies: map<Key, Value>, n: Key, k: Key, v: Value)
    ensures AfterEdit(s, cookies, n, SetValue(k, v)) ==
              SegmentStarted(s, cookies, n).(data := SetKey(SegmentStarted(s, cookies, n).data, n, k, v))
  {
  }

  /** The store `setFlash` leaves. */
  lemma FlashNextEffect(s: StoreState, cookies: map<Key, Value>, n: Key, k: Key, v: Value)
    ensures AfterEdit(s, cookies, n, FlashNext(k, v)) ==
              SegmentStarted(s, cookies, n).(data := SetFlashNext(SegmentStarted(s, cookies, n).data, n, k, v))
  {
  }

  /** The store `setFlashNow` leaves. */
  lemma FlashBothEffect(s: StoreState, cookies: map<Key, Value>, n: Key, k: Key, v: Value)
    ensures AfterEdit(s, cookies, n, FlashBoth(k, v)) ==
              SegmentStarted(s, cookies, n).(data := SetFlashBoth(SegmentStarted(s, cookies, n).data, n, k, v))
  {
  }

  /** The store any other segment operation leaves: its change applied to
      the store `resumeSession()` leaves, or nothing when that fails; here
      for `clear`. */
  lemma ClearEffect(s: StoreState, cookies: map<Key, Value>, n: Key)
    ensures AfterEdit(s, cookies, n, ClearAll) ==
              if ResumeOk(s, cookies) then SegmentResumed(s, cookies, n).(data := ClearSegment(SegmentResumed(s, cookies, n).data, n)) else s
  {
  }

  /** The store `remove` leaves. */
  lemma RemoveEffect(s: StoreState, cookies: map<Key, Value>, n: Key, key: Option<Key>)
    ensures AfterEdit(s, cookies, n, RemoveEntry(key)) ==
              if ResumeOk(s, cookies) then SegmentResumed(s, cookies, n).(data := RemoveKey(SegmentResumed(s, cookies, n).data, n, key)) else s
  {
  }

  /** The store `clearFlash` leaves. */
  lemma ClearNextEffect(s: StoreState, cookies: map<Key, Value>, n: Key)
    ensures AfterEdit(s, cookies, n, ClearNext) ==
              if ResumeOk(s, cookies) then SegmentResumed(s, cookies, n).(data := ClearFlashNext(SegmentResumed(s, cookies, n).data, n)) else s
  {
  }

  /** The store `clearFlashNow` leaves. */
  lemma ClearBothEffect(s: StoreState, cookies: map<Key, Value>, n: Key)
    ensures AfterEdit(s, cookies, n, ClearBoth) ==
              if ResumeOk(s, cookies) then SegmentResumed(s, cookies, n).(data := ClearFlashBoth(SegmentResumed(s, cookies, n).data, n)) else s
  {
  }

  /** The store `keepFlash` leaves. */
  lemma KeepEffect(s: StoreState, cookies: map<Key, Value>, n: Key)
    ensures AfterEdit(s, cookies, n, KeepCurrent) ==
              if ResumeOk(s, cookies) then SegmentResumed(s, cookies, n).(data := KeepFlash(SegmentResumed(s, cookies, n).data, n)) else s
  {
  }

  /** Reads and clears never start a session the client has no cookie for:
      with no active session and no session cookie they change nothing. */
  lemma ReadsDoNotStart(s: StoreState, cookies: map<Key, Value>, n: Key, e: Edit)
    requires s.status != Active && !Available(s, cookies)
    ensures SegmentResumed(s, cookies, n) == s
    ensures !IsWrite(e) ==> AfterEdit(s, cookies, n, e) == s
  {
  }

  /** A read on a new request (no session, no cookie, nothing in
      `$_SESSION`) answers the caller's default and leaves the session not
      started. */
  lemma FreshGetGivesDefault(s: StoreState, cookies: map<Key, Value>, n: Key, k: Key, alt: Value)
    requires s.status != Active && !Available(s, cookies) && s.data == map[]
    ensures GetKey(SegmentResumed(s, cookies, n).data, n, k, alt) == alt
    ensures GetFlashKey(SegmentResumed(s, cookies, n).data, FLASH_NOW, n, k, alt) == alt
    ensures SegmentResumed(s, cookies, n).status != Active
  {
    ReadsDoNotStart(s, cookies, n, ClearAll);
  }

  /** With a session cookie and a store that can start, a read resumes the
      session and sees the handler's record. */
  lemma ReadResumesWithCookie(s: StoreState, cookies: map<Key, Value>, n: Key)
    requires s.status != Active && Available(s, cookies) && CanStart(s)
    ensures SegmentResumed(s, cookies, n).status == Active
    ensures SegmentResumed(s, cookies, n).data == Load(s.saved, n)
  {
  }

  /** A write reaches `$_SESSION` whether or not a session could be started,
      and leaves the session active whenever `start()` could succeed. */
  lemma WritesStart(s: StoreState, cookies: map<Key, Value>, n: Key, e: Edit)
    requires IsWrite(e)
    ensures StartOk(s) ==> AfterEdit(s, cookies, n, e).status == Active
    ensures AfterEdit(s, cookies, n, e).data == ApplyEdit(SegmentStarted(s, cookies, n).data, n, e)
  {
  }

  /** The store is settled when no later start can replace `$_SESSION`: the
      session is active, or starting it fails. */
  predicate Settled(s: StoreState) {
    s.status == Active || !CanStart(s)
  }

  /** On a settled store a segment operation works on the current data (after
      loading) and keeps the store settled; any write settles the store. */
  lemma EditOnSettled(s: StoreState, cookies: map<Key, Value>, n: Key, e: Edit)
    ensures Settled(s) && (IsWrite(e) || ResumeOk(s, cookies)) ==>
              AfterEdit(s, cookies, n, e) == s.(data := ApplyEdit(Load(s.data, n), n, e))
    ensures Settled(s) ==> Settled(AfterEdit(s, cookies, n, e))
    ensures IsWrite(e) ==> Settled(AfterEdit(s, cookies, n, e))
  {
    var st := SegmentStarted(s, cookies, n);
    var a := AfterEdit(s, cookies, n, e);
    assert st.status == Active <==> StartOk(s);
    assert st.handlerOk == s.handlerOk;
    if Settled(s) {
      if s.status == Active {
        assert Resumed(s, cookies) == s;
        assert st == s.(data := Load(s.data, n));
      } else {
        assert !ResumeOk(s, cookies) && !StartOk(s);
        assert Started(s) == s;
        assert st == s.(data := Load(s.data, n));
      }
    }
    if IsWrite(e) {
      assert a == st.(data := ApplyEdit(st.data, n, e));
    }
  }

  /** Whatever the segment writes, resuming it again changes nothing. */
  lemma WriteSettles(s: StoreState, cookies: map<Key, Value>, n: Key, e: Edit)
    requires IsWrite(e) && Ordinary(n)
    ensures SegmentResumed(AfterEdit(s, cookies, n, e), cookies, n) == AfterEdit(s, cookies, n, e)
  {
    var b := SegmentStarted(s, cookies, n);
    var a := AfterEdit(s, cookies, n, e);
    var d := ApplyEdit(b.data, n, e);
    if b.status == Active {
      var base := if ResumeOk(s, cookies) then Resumed(s, cookies).data else Started(s).data;
      assert b.data == Load(base, n);
      LoadSpec(base, n);
    }
    match e {
      case SetValue(k, v) =>
        SetEffect(s, cookies, n, k, v);
        SetKeySpec(b.data, n, k, v);
      case FlashNext(k, v) =>
        FlashNextEffect(s, cookies, n, k, v);
        SetFlashKeySpec(b.data, FLASH_NEXT, n, k, v);
      case FlashBoth(k, v) =>
        FlashBothEffect(s, cookies, n, k, v);
        SetFlashKeySpec(b.data, FLASH_NOW, n, k, v);
        SetFlashKeySpec(SetFlashKey(b.data, FLASH_NOW, n, k, v), FLASH_NEXT, n, k, v);
    }
    assert a == b.(data := d);
    if a.status == Active {
      assert Loaded(d, n);
      LoadedIsFixed(d, n);
    } else {
      assert !StartOk(s);
      assert !CanStart(a);
    }
  }

  /** On a settled store, what a write leaves in `$_SESSION` is the edit
      applied to the loaded data, and a later read sees exactly that. */
  lemma SettledWrite(s: StoreState, cookies: map<Key, Value>, n: Key, e: Edit)
    requires Settled(s) && Ordinary(n) && IsWrite(e)
    ensures SegmentResumed(AfterEdit(s, cookies, n, e), cookies, n).data == ApplyEdit(Load(s.data, n), n, e)
  {
    WriteSettles(s, cookies, n, e);
    EditOnSettled(s, cookies, n, e);
  }

  /** Resuming twice is resuming once. */
  lemma ResumeIdempotent(s: StoreState, cookies: map<Key, Value>, n: Key)
    requires Ordinary(n)
    ensures SegmentResumed(SegmentResumed(s, cookies, n), cookies, n) == SegmentResumed(s, cookies, n)
  {
    var r := SegmentResumed(s, cookies, n);
    if ResumeOk(s, cookies) {
      LoadSpec(Resumed(s, cookies).data, n);
    }
  }

  /** `set(k, v)` then `get(k)` in the same request: the session is started
      when it can be, and `get` answers `v` (the default when `v` is null). */
  lemma SetThenGet(s: StoreState, cookies: map<Key, Value>, n: Key, k: Key, v: Value, alt: Value)
    requires Ordinary(n)
    ensures StartOk(s) ==> AfterEdit(s, cookies, n, SetValue(k, v)).status == Active
    ensures GetKey(SegmentResumed(AfterEdit(s, cookies, n, SetValue(k, v)), cookies, n).data, n, k, alt)
            == if IsSet(v) then v else alt
  {
    WriteSettles(s, cookies, n, SetValue(k, v));
    var b := SegmentStarted(s, cookies, n);
    ReadYourWrite(b.data, n, k, v, alt);
  }

  /** On a settled store (in particular an active session) `set(k, v)`
      changes only key `k` of this segment: other keys, other segments and
      every flash bucket read as before. */
  lemma SetIsolated(s: StoreState, cookies: map<Key, Value>, n: Key, k: Key, v: Value)
    requires Settled(s) && Ordinary(n)
    ensures Partition(AfterEdit(s, cookies, n, SetValue(k, v)).data, n) == Partition(s.data, n)[k := v]
    ensures forall m :: m != n && Ordinary(m) ==> Partition(AfterEdit(s, cookies, n, SetValue(k, v)).data, m) == Partition(s.data, m)
    ensures forall b, m :: Bucket(AfterEdit(s, cookies, n, SetValue(k, v)).data, b, m) == Bucket(s.data, b, m) || b == n
    ensures AfterEdit(s, cookies, n, SetValue(k, v)).status == s.status
  {
    EditOnSettled(s, cookies, n, SetValue(k, v));
    LoadSpec(s.data, n);
    var l := Load(s.data, n);
    var r := SetKey(l, n, k, v);
    assert AfterEdit(s, cookies, n, SetValue(k, v)).data == r;
    SetKeySpec(l, n, k, v);
    forall m | m != n && Ordinary(m) ensures Partition(r, m) == Partition(s.data, m) {
      assert Partition(r, m) == Partition(l, m);
    }
  }

  /** `setFlash(k, v)` then `getFlashNext(k)` in the same request: the
      session is started when it can be, and `getFlashNext` answers `v` (the
      default when `v` is null). */
  lemma SetFlashThenRead(s: StoreState, cookies: map<Key, Value>, n: Key, k: Key, v: Value, alt: Value)
    requires Ordinary(n)
    ensures StartOk(s) ==> AfterEdit(s, cookies, n, FlashNext(k, v)).status == Active
    ensures GetFlashKey(SegmentResumed(AfterEdit(s, cookies, n, FlashNext(k, v)), cookies, n).data, FLASH_NEXT, n, k, alt)
            == if IsSet(v) then v else alt
  {
    WriteSettles(s, cookies, n, FlashNext(k, v));
    WritesStart(s, cookies, n, FlashNext(k, v));
    SetFlashNextSpec(SegmentStarted(s, cookies, n).data, n, k, v, alt);
  }

  /** On a settled store (in particular an active session) `setFlash(k, v)`
      leaves the current flash alone: `getFlash` sees for every key exactly
      what it saw before. */
  lemma SetFlashKeepsCurrent(s: StoreState, cookies: map<Key, Value>, n: Key, k: Key, v: Value, alt: Value)
    requires Settled(s) && Ordinary(n)
    ensures forall j ::
              GetFlashKey(SegmentResumed(AfterEdit(s, cookies, n, FlashNext(k, v)), cookies, n).data, FLASH_NOW, n, j, alt)
                == GetFlashKey(s.data, FLASH_NOW, n, j, alt)
  {
    SettledWrite(s, cookies, n, FlashNext(k, v));
    var l := Load(s.data, n);
    assert ApplyEdit(l, n, FlashNext(k, v)) == SetFlashNext(l, n, k, v);
    SetFlashNextSpec(l, n, k, v, alt);
    forall j ensures GetFlashKey(SetFlashNext(l, n, k, v), FLASH_NOW, n, j, alt) == GetFlashKey(s.data, FLASH_NOW, n, j, alt) {
      LoadKeepsFlash(s.data, n, FLASH_NOW, j, alt);
    }
  }

  /** `setFlashNow(k, v)` then a read in the same request: the session is
      started when it can be, and both `getFlash(k)` and `getFlashNext(k)`
      answer `v` (the default when `v` is null). */
  lemma SetFlashNowThenRead(s: StoreState, cookies: map<Key, Value>, n: Key, k: Key, v: Value, alt: Value)
    requires Ordinary(n)
    ensures StartOk(s) ==> AfterEdit(s, cookies, n, FlashBoth(k, v)).status == Active
    ensures GetFlashKey(SegmentResumed(AfterEdit(s, cookies, n, FlashBoth(k, v)), cookies, n).data, FLASH_NOW, n, k, alt)
            == if IsSet(v) then v else alt
    ensures GetFlashKey(SegmentResumed(AfterEdit(s, cookies, n, FlashBoth(k, v)), cookies, n).data, FLASH_NEXT, n, k, alt)
            == if IsSet(v) then v else alt
  {
    WriteSettles(s, cookies, n, FlashBoth(k, v));
    WritesStart(s, cookies, n, FlashBoth(k, v));
    SetFlashBothSpec(SegmentStarted(s, cookies, n).data, n, k, v, alt);
  }

  // ---------------------------------------------------------------------
  // CSRF token of src/CsrfToken.php, bound to a segment named n

  /** The value `get(key)` reads after resuming. */
  function CurrentValue(s: StoreState, cookies: map<Key, Value>, n: Key, key: Key): Value {
    GetKey(SegmentResumed(s, cookies, n).data, n, key, Null)
  }

  /** The store after `regenerateValue(key)` storing `gen`: set, then get. */
  function RegeneratedState(s: StoreState, cookies: map<Key, Value>, n: Key, key: Key, gen: Value): StoreState {
    SegmentResumed(AfterEdit(s, cookies, n, SetValue(key, gen)), cookies, n)
  }

  /** What `regenerateValue(key)` returns: the value stored, read back. */
  function RegeneratedValue(s: StoreState, cookies: map<Key, Value>, n: Key, key: Key, gen: Value): Value {
    GetKey(RegeneratedState(s, cookies, n, key, gen).data, n, key, Null)
  }

  /** Whether `getValue(key)` regenerates: the value read is loosely null. */
  predicate NeedsValue(s: StoreState, cookies: map<Key, Value>, n: Key, key: Key) {
    LooselyNull(CurrentValue(s, cookies, n, key))
  }

  /** The store after `getValue(key)`: get, regenerate if loosely null, get. */
  function TokenState(s: StoreState, cookies: map<Key, Value>, n: Key, key: Key, gen: Value): StoreState {
    var s1 := SegmentResumed(s, cookies, n);
    var s2 := if LooselyNull(GetKey(s1.data, n, key, Null)) then RegeneratedState(s1, cookies, n, key, gen) else s1;
    SegmentResumed(s2, cookies, n)
  }

  /** What `getValue(key)` returns. */
  function TokenValue(s: StoreState, cookies: map<Key, Value>, n: Key, key: Key, gen: Value): Value {
    GetKey(TokenState(s, cookies, n, key, gen).data, n, key, Null)
  }

  /** The keys `regenerateAllKeyValues()` visits: those of the array
      `getSegment()` returns after resuming, when that value is truthy. */
  function TokenKeys(s: StoreState, cookies: map<Key, Value>, n: Key): (r: set<Key>)
    ensures r != {} && !ResumeOk(s, cookies) ==> n in s.data && r == Partition(s.data, n).Keys
    ensures r <= Partition(SegmentResumed(s, cookies, n).data, n).Keys
  {
    var v := SegmentValue(SegmentResumed(s, cookies, n).data, n);
    if Truthy(v) then Entries(v).Keys else {}
  }

  /** `regenerateValue(key)` returns exactly the generated value and stores it
      under `key` alone: on a settled store the other keys of the token
      segment and every other segment read as before. */
  lemma RegenerateSpec(s: StoreState, cookies: map<Key, Value>, n: Key, key: Key, gen: Value)
    requires Ordinary(n) && IsSet(gen)
    ensures RegeneratedValue(s, cookies, n, key, gen) == gen
    ensures Settled(RegeneratedState(s, cookies, n, key, gen))
    ensures Settled(s) ==> RegeneratedState(s, cookies, n, key, gen).status == s.status
    ensures Settled(s) ==> Partition(RegeneratedState(s, cookies, n, key, gen).data, n) == Partition(s.data, n)[key := gen]
    ensures Settled(s) ==> forall m :: m != n && Ordinary(m) ==>
              Partition(RegeneratedState(s, cookies, n, key, gen).data, m) == Partition(s.data, m)
  {
    SetThenGet(s, cookies, n, key, gen, Null);
    WriteSettles(s, cookies, n, SetValue(key, gen));
    EditOnSettled(s, cookies, n, SetValue(key, gen));
    if Settled(s) {
      SetIsolated(s, cookies, n, key, gen);
    }
  }

  /** `getValue(key)` keeps a value that is not loosely null and otherwise
      stores and returns the generated one. */
  lemma TokenValueSpec(s: StoreState, cookies: map<Key, Value>, n: Key, key: Key, gen: Value)
    requires Ordinary(n) && IsSet(gen)
    ensures !NeedsValue(s, cookies, n, key) ==>
              TokenValue(s, cookies, n, key, gen) == CurrentValue(s, cookies, n, key)
              && TokenState(s, cookies, n, key, gen) == SegmentResumed(s, cookies, n)
    ensures NeedsValue(s, cookies, n, key) ==>
              TokenValue(s, cookies, n, key, gen) == gen
              && TokenState(s, cookies, n, key, gen) == RegeneratedState(SegmentResumed(s, cookies, n), cookies, n, key, gen)
  {
    var s1 := SegmentResumed(s, cookies, n);
    ResumeIdempotent(s, cookies, n);
    if NeedsValue(s, cookies, n, key) {
      RegenerateSpec(s1, cookies, n, key, gen);
      WriteSettles(s1, cookies, n, SetValue(key, gen));
    }
  }

  /** Two calls of `getValue(key)` with no regeneration in between return
      the same value, and the second changes nothing (given that a freshly
      generated value is never loosely null, as a SHA-512 digest is not). */
  lemma TokenValueStable(s: StoreState, cookies: map<Key, Value>, n: Key, key: Key, gen1: Value, gen2: Value)
    requires Ordinary(n) && !LooselyNull(gen1) && IsSet(gen2)
    ensures TokenValue(TokenState(s, cookies, n, key, gen1), cookies, n, key, gen2) == TokenValue(s, cookies, n, key, gen1)
    ensures TokenState(TokenState(s, cookies, n, key, gen1), cookies, n, key, gen2) == TokenState(s, cookies, n, key, gen1)
    ensures !NeedsValue(TokenState(s, cookies, n, key, gen1), cookies, n, key)
  {
    var t := TokenState(s, cookies, n, key, gen1);
    TokenValueSpec(s, cookies, n, key, gen1);
    var s1 := SegmentResumed(s, cookies, n);
    if NeedsValue(s, cookies, n, key) {
      WriteSettles(s1, cookies, n, SetValue(key, gen1));
      RegenerateSpec(s1, cookies, n, key, gen1);
    } else {
      ResumeIdempotent(s, cookies, n);
    }
    assert SegmentResumed(t, cookies, n) == t;
    assert CurrentValue(t, cookies, n, key) == TokenValue(s, cookies, n, key, gen1);
    TokenValueSpec(t, cookies, n, key, gen2);
  }

  /** A value an earlier `getValue(key)` answered no longer validates once
      `regenerateValue(key)` has stored a different `gen`: `getValue(key)`
      now answers `gen`. */
  lemma RegenerateInvalidates(s: StoreState, cookies: map<Key, Value>, n: Key, key: Key, gen0: Value, gen: Value, gen2: Value)
    requires Ordinary(n) && !LooselyNull(gen) && IsSet(gen2)
    requires TokenValue(s, cookies, n, key, gen0) != gen
    ensures TokenValue(RegeneratedState(TokenState(s, cookies, n, key, gen0), cookies, n, key, gen), cookies, n, key, gen2) == gen
    ensures TokenValue(s, cookies, n, key, gen0)
              != TokenValue(RegeneratedState(TokenState(s, cookies, n, key, gen0), cookies, n, key, gen), cookies, n, key, gen2)
  {
    var t := TokenState(s, cookies, n, key, gen0);
    var r := RegeneratedState(t, cookies, n, key, gen);
    RegenerateSpec(t, cookies, n, key, gen);
    WriteSettles(t, cookies, n, SetValue(key, gen));
    ResumeIdempotent(AfterEdit(t, cookies, n, SetValue(key, gen)), cookies, n);
    assert SegmentResumed(r, cookies, n) == r;
    TokenValueSpec(r, cookies, n, key, gen2);
  }

  /** Every key of `ks` is present in `p` and holds the hash of one of the
      random draws numbered `lo` up to `hi - 1`. */
  ghost predicate DrawnValues(p: map<Key, Value>, ks: set<Key>, outputs: nat -> string, hash: string -> string, lo: nat, hi: nat) {
    forall k :: k in ks ==> k in p && exists c :: lo <= c < hi && p[k] == Str(hash(outputs(c)))
  }

  /** Storing the hash of draw `hi` under `k` extends the drawn keys by `k`. */
  lemma DrawnValuesStep(p: map<Key, Value>, ks: set<Key>, k: Key, outputs: nat -> string, hash: string -> string, lo: nat, hi: nat)
    requires DrawnValues(p, ks, outputs, hash, lo, hi) && lo <= hi
    ensures DrawnValues(p[k := Str(hash(outputs(hi)))], ks + {k}, outputs, hash, lo, hi + 1)
  {
    var q := p[k := Str(hash(outputs(hi)))];
    forall j | j in ks + {k}
      ensures j in q && exists c :: lo <= c < hi + 1 && q[j] == Str(hash(outputs(c)))
    {
      if j == k {
        assert q[j] == Str(hash(outputs(hi)));
      } else {
        var c :| lo <= c < hi && p[j] == Str(hash(outputs(c)));
        assert q[j] == Str(hash(outputs(c)));
      }
    }
  }

  /** Progress of `regenerateAllKeyValues()` from `s1` to `s`: the store is
      still settled with the same status, the token segment has the same
      keys, each key of `ks` holds one of the draws `lo` .. `hi - 1`, and no
      other segment changed. */
  ghost predicate RegeneratedKeys(s: StoreState, s1: StoreState, n: Key, ks: set<Key>,
                                  outputs: nat -> string, hash: string -> string, lo: nat, hi: nat) {
    && Settled(s) && s.status == s1.status
    && Partition(s.data, n).Keys == Partition(s1.data, n).Keys
    && DrawnValues(Partition(s.data, n), ks, outputs, hash, lo, hi)
    && forall m :: m != n && Ordinary(m) ==> Partition(s.data, m) == Partition(s1.data, m)
  }

  lemma RegeneratedNone(s1: StoreState, n: Key, outputs: nat -> string, hash: string -> string, lo: nat)
    requires Settled(s1)
    ensures RegeneratedKeys(s1, s1, n, {}, outputs, hash, lo, lo)
  {
  }

  /** One more `regenerateValue(k)`, for a key of the token segment, keeps
      the progress and adds `k` to the keys done. */
  lemma RegeneratedKeysStep(s: StoreState, s1: StoreState, cookies: map<Key, Value>, n: Key, ks: set<Key>, k: Key,
                            outputs: nat -> string, hash: string -> string, lo: nat, hi: nat)
    requires Ordinary(n) && lo <= hi && k in Partition(s1.data, n)
    requires RegeneratedKeys(s, s1, n, ks, outputs, hash, lo, hi)
    ensures RegeneratedKeys(RegeneratedState(s, cookies, n, k, Str(hash(outputs(hi)))), s1, n, ks + {k}, outputs, hash, lo, hi + 1)
  {
    var gen := Str(hash(outputs(hi)));
    var r := RegeneratedState(s, cookies, n, k, gen);
    RegenerateSpec(s, cookies, n, k, gen);
    assert Partition(r.data, n) == Partition(s.data, n)[k := gen];
    DrawnValuesStep(Partition(s.data, n), ks, k, outputs, hash, lo, hi);
  }

  /** `regenerateAllKeyValues()` with the keys visited in the order `ks`
      (PHP's `foreach` takes them in insertion order): `regenerateValue`
      for each key in turn, key `ks[i]` with draw `c + i`. */
  function RegenerateInOrder(s: StoreState, cookies: map<Key, Value>, n: Key, ks: seq<Key>,
                             outputs: nat -> string, hash: string -> string, c: nat): StoreState
    decreases |ks|
  {
    if ks == [] then s
    else RegenerateInOrder(RegeneratedState(s, cookies, n, ks[0], Str(hash(outputs(c)))), cookies, n, ks[1..], outputs, hash, c + 1)
  }

  /** No key occurs twice in `ks`, as no key occurs twice in a PHP array. */
  predicate Distinct(ks: seq<Key>) {
    forall i, j :: 0 <= i < j < |ks| ==> ks[i] != ks[j]
  }

  /** From partition `p` to partition `q`, key `ks[i]` received the hash of
      draw `c + i`, every other key kept its value, and no key was added
      besides those of `ks`. */
  predicate Placed(p: map<Key, Value>, q: map<Key, Value>, ks: seq<Key>, outputs: nat -> string, hash: string -> string, c: nat) {
    && (forall i :: 0 <= i < |ks| ==> ks[i] in q && q[ks[i]] == Str(hash(outputs(c + i))))
    && (forall k :: k in p && k !in ks ==> k in q && q[k] == p[k])
    && (forall k :: k in q ==> k in p || k in ks)
  }

  /** Storing the first key's draw, then placing the rest, places all. */
  lemma PlacedStep(p: map<Key, Value>, q: map<Key, Value>, ks: seq<Key>, outputs: nat -> string, hash: string -> string, c: nat)
    requires ks != [] && Distinct(ks)
    requires Placed(p[ks[0] := Str(hash(outputs(c)))], q, ks[1..], outputs, hash, c + 1)
    ensures Placed(p, q, ks, outputs, hash, c)
  {
    var rest := ks[1..];
    assert forall j :: 0 <= j < |rest| ==> rest[j] == ks[j + 1];
    forall i | 0 <= i < |ks| ensures ks[i] in q && q[ks[i]] == Str(hash(outputs(c + i))) {
      if i == 0 {
        assert ks[0] !in rest;
      } else {
        assert rest[i - 1] == ks[i];
      }
    }
    forall k | k in q ensures k in p || k in ks {
      if k in rest {
        var j :| 0 <= j < |rest| && rest[j] == k;
        assert ks[j + 1] == k;
      }
    }
  }

  /** What that `foreach` does to the token segment's own entries: key
      `ks[i]` is overwritten with the hash of draw `c + i`, in turn. */
  function Drawn(p: map<Key, Value>, ks: seq<Key>, outputs: nat -> string, hash: string -> string, c: nat): map<Key, Value>
    decreases |ks|
  {
    if ks == [] then p else Drawn(p[ks[0] := Str(hash(outputs(c)))], ks[1..], outputs, hash, c + 1)
  }

  /** Drawing for distinct keys places each key's own draw, keeps every other
      entry and adds no key besides those drawn for. */
  lemma {:induction false} DrawnPlaced(p: map<Key, Value>, ks: seq<Key>, outputs: nat -> string, hash: string -> string, c: nat)
    requires Distinct(ks)
    ensures Placed(p, Drawn(p, ks, outputs, hash, c), ks, outputs, hash, c)
    decreases |ks|
  {
    if ks != [] {
      var rest := ks[1..];
      assert Distinct(rest) by {
        assert forall j :: 0 <= j < |rest| ==> rest[j] == ks[j + 1];
      }
      DrawnPlaced(p[ks[0] := Str(hash(outputs(c)))], rest, outputs, hash, c + 1);
      PlacedStep(p, Drawn(p, ks, outputs, hash, c), ks, outputs, hash, c);
    }
  }

  /** On a settled store, visiting the keys in order `ks` changes the token
      segment exactly as `Drawn` says, so for distinct keys key `ks[i]` holds
      the hash of draw `c + i`, every other key is as it was and none is
      added; no other segment changes, and the store stays settled with the
      same status. */
  lemma {:induction false} RegenerateInOrderSpec(s: StoreState, cookies: map<Key, Value>, n: Key, ks: seq<Key>,
                                                 outputs: nat -> string, hash: string -> string, c: nat)
    requires Ordinary(n) && Settled(s)
    ensures Settled(RegenerateInOrder(s, cookies, n, ks, outputs, hash, c))
    ensures RegenerateInOrder(s, cookies, n, ks, outputs, hash, c).status == s.status
    ensures Partition(RegenerateInOrder(s, cookies, n, ks, outputs, hash, c).data, n) == Drawn(Partition(s.data, n), ks, outputs, hash, c)
    ensures Distinct(ks) ==>
              Placed(Partition(s.data, n), Partition(RegenerateInOrder(s, cookies, n, ks, outputs, hash, c).data, n), ks, outputs, hash, c)
    ensures forall m :: m != n && Ordinary(m) ==>
              Partition(RegenerateInOrder(s, cookies, n, ks, outputs, hash, c).data, m) == Partition(s.data, m)
    decreases |ks|
  {
    if ks != [] {
      var gen := Str(hash(outputs(c)));
      var s1 := RegeneratedState(s, cookies, n, ks[0], gen);
      RegenerateSpec(s, cookies, n, ks[0], gen);
      RegenerateInOrderSpec(s1, cookies, n, ks[1..], outputs, hash, c + 1);
      assert RegenerateInOrder(s, cookies, n, ks, outputs, hash, c) == RegenerateInOrder(s1, cookies, n, ks[1..], outputs, hash, c + 1);
    }
    if Distinct(ks) {
      DrawnPlaced(Partition(s.data, n), ks, outputs, hash, c);
    }
  }

  /** When every visited key was already present, the key set is unchanged. */
  lemma PlacedKeys(p: map<Key, Value>, q: map<Key, Value>, ks: seq<Key>, outputs: nat -> string, hash: string -> string, c: nat)
    requires Placed(p, q, ks, outputs, hash, c)
    requires forall i :: 0 <= i < |ks| ==> ks[i] in p
    ensures q.Keys == p.Keys
  {
    forall k | k in q ensures k in p {
      if k in ks {
        var i :| 0 <= i < |ks| && ks[i] == k;
      }
    }
  }

  /** Visiting the keys of the token segment in any order meets the progress
      that the loop of `regenerateAllKeyValues()` is proved to make: the same
      keys, each holding one of the draws made, and no other segment
      changed. */
  lemma InOrderMeetsProgress(s: StoreState, cookies: map<Key, Value>, n: Key, ks: seq<Key>,
                             outputs: nat -> string, hash: string -> string, c: nat)
    requires Ordinary(n) && Settled(s) && Distinct(ks)
    requires forall i :: 0 <= i < |ks| ==> ks[i] in Partition(s.data, n)
    ensures RegeneratedKeys(RegenerateInOrder(s, cookies, n, ks, outputs, hash, c), s, n, (set k | k in ks :: k), outputs, hash, c, c + |ks|)
  {
    var r := RegenerateInOrder(s, cookies, n, ks, outputs, hash, c);
    RegenerateInOrderSpec(s, cookies, n, ks, outputs, hash, c);
    PlacedKeys(Partition(s.data, n), Partition(r.data, n), ks, outputs, hash, c);
    forall k | k in (set k | k in ks :: k)
      ensures k in Partition(r.data, n) && exists d :: c <= d < c + |ks| && Partition(r.data, n)[k] == Str(hash(outputs(d)))
    {
      var i :| 0 <= i < |ks| && ks[i] == k;
      assert Partition(r.data, n)[k] == Str(hash(outputs(c + i)));
    }
  }
}
