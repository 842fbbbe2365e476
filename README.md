# Aura.Session in Dafny

A Dafny model of the session core of Aura.Session, in its two generations.
It proves what the library promises about each generation.

- **Current generation** (src/Session.php, src/Segment.php, src/CsrfToken.php):
  - a session manager drives PHP's session extension;
  - segments are named views onto `$_SESSION[name]`, plus two flash buckets;
  - a multi-key CSRF token stores its values in the segment `Aura\Session\CsrfToken`.
- **Legacy generation** (src/Aura/Session/Manager.php, src/Aura/Session/Segment.php, src/Aura/Session/CsrfToken.php):
  - a manager over the same extension;
  - a segment bound by reference to an external array, with read-once flash values under the key `__flash`;
  - a single-value CSRF token.

The files follow the program's structure:

- `php_values.dfy` (module `PhpValues`): PHP values and the array operations the code uses.
  - Covered: `isset`, reads, writes, `unset`, `array_merge` on string keys, loose `== null`, truthiness.
- `environment.dfy` (module `Environment`): the collaborators the library calls but does not contain.
  - Class `Store`: PHP's session extension together with `$_SESSION`. Its fields are the session status, whether the save handler succeeds, the session name and id, `$_SESSION`, the handler's saved record and the cookie parameters.
  - Each `session_*` call is a pure transition on `StoreState`, and a `Store` method performs it. Whether `session_start`, `session_destroy` and `session_regenerate_id` succeed, and whether `session_write_close` and `session_destroy` reach the saved record, is decided by the status and the `handlerOk` flag; the model does not choose it. An active session ends on `session_write_close` and `session_destroy` even when the handler fails, and `session_set_cookie_params` is refused while a session is active.
  - Class `Randval`: the random source, an arbitrary stream of outputs with a call counter. `hash('sha512', ·)` is a function parameter of each token (`string -> string`).
- `segment_data.dfy` (module `SegmentData`): each segment operation of src/Segment.php as a function on `$_SESSION`, with lemmas about what it changes and what it leaves alone.
- `session_flow.dfy` (module `SessionFlow`): the store left by each manager, segment and token operation, as a function of the old store and the incoming cookies. The lemmas here are the promises of the current generation.
- `aura_session.dfy` (module `AuraSession`): the classes `Session`, `Segment` and `CsrfToken` of the current generation.
  - They share one `Store` object, so every segment with the same name sees the same data.
  - Each method's `ensures` ties the new store state to the `SessionFlow` function for that operation.
- `legacy_segment.dfy` (module `LegacySegment`): the legacy segment over a shared `Bag` object, which stands for the array it holds by reference, and the legacy CSRF token.
- `legacy_manager.dfy` (module `LegacyManager`): the legacy manager.

Inputs from outside are parameters:

- the incoming cookies (`$_COOKIE`);
- the random stream;
- the hash function;
- the handler's success flag and saved record, which are fields of the store.

The model assumes that every array key is a non-numeric string. The type `Key` is plain `string` and does not enforce this.

Some results of the session extension are taken as assumptions rather than proved. They are the environment's rules, stated once as plain functions of the store:

- `Environment.StartOk`: `session_start()` answers true when a session is already active, or when sessions are enabled and the handler works.
- `Environment.DestroyOk`: `session_destroy()` answers true on an active session whose handler works.
- `Environment.RegenerateOk`: `session_regenerate_id(true)` answers true on an active session whose handler works. On an active session whose handler fails it answers false and, as since PHP 7.1, ends the session.
- `Environment.WriteCloseOk` and `Environment.UnsetOk`: `session_write_close()` and `session_unset()` answer true on an active session.
- `Environment.CookieParamsOk`: `session_set_cookie_params()` answers true when no session is active, as it does since PHP 7.2.

The getters `getName()` of the legacy segment and `getCookieParams()` of both managers only read a field. What they answer is stated by the constructors and by `setCookieParams`. The legacy `isAvailable()` only checks that the cookie array has the session name (src/Aura/Session/Manager.php:118-122); the legacy manager has no `resume()`, so nothing else depends on it, and it has no contract of its own.

## Model

| member | source | states |
|---|---|---|
| Environment.Started | src/Session.php:186-189 | a real start activates the session and loads the handler's record into `$_SESSION`; a failed start or a start on an active session changes nothing; name, id and cookie parameters are kept |
| Environment.Unset | src/Session.php:219-222 | `session_unset()` empties `$_SESSION` of an active session and changes nothing else; without an active session it changes nothing |
| Environment.WrittenClosed | src/Session.php:231-234 | `session_write_close()` leaves no session active in every case; with a working handler `$_SESSION` becomes the handler's record, with a failing one the old record stays; `$_SESSION` itself is kept |
| Environment.Destroyed | src/Session.php:245-266 | `session_destroy()` ends an active session in every case and deletes its record when the handler works, keeping it when the handler fails; `$_SESSION` is left to `session_unset`; without an active session nothing changes |
| Environment.Regenerated | src/Session.php:419-426 | on success the session stays active under an id different from before and keeps `$_SESSION`, while the old record is deleted and the new id has none yet; on an active session whose handler fails the session ends and nothing else changes; without an active session nothing changes |
| Environment.CommitThenStartRestores | src/Session.php:231-234 | committing an active session and starting again gives back the committed data |
| Environment.FailedCommitKeepsRecord | src/Session.php:231-234 | a write-close with a failing handler still ends the session but keeps the old record, so a later start brings back the record from before, not the unwritten data |
| Environment.DestroyThenStartIsEmpty | src/Session.php:245-266 | after a successful destroy, a new start begins with empty data |
| Environment.Store.SessionStart | src/Session.php:186-189 | the method performs the `Started` transition and answers true exactly when a session is active or can be started |
| Environment.Store.SessionUnset | src/Session.php:219-222 | the method performs the `Unset` transition |
| Environment.Store.SessionWriteClose | src/Session.php:231-234 | the method performs the `WrittenClosed` transition |
| Environment.Store.SessionDestroy | src/Session.php:245-266 | the method performs the `Destroyed` transition and answers true exactly on an active session whose handler works |
| Environment.Store.SessionRegenerateId | src/Session.php:419-426 | the method performs the `Regenerated` transition (a failure on an active session ends it) and answers true exactly on an active session whose handler works |
| Environment.Store.SessionSetCookieParams | src/Session.php:375-385 | the method answers false and changes nothing while a session is active; otherwise it answers true and only the cookie-parameter record changes, to exactly the five given values |
| Environment.CookieParamsSet | src/Session.php:375-385 | during an active session `session_set_cookie_params` changes nothing at all; otherwise the cookie parameters become the given record and nothing else changes |
| Environment.Randval.Generate | src/CsrfToken.php:97-103 | each call returns the next output of the random stream and advances the counter by one |
| PhpValues.Merge | src/Session.php:375-385 | `array_merge` on string keys: the result has the keys of both arrays; a key of the second takes its value from the second, any other key keeps the first's value |
| PhpValues.Put | src/Segment.php:96-100 | `$c[$k] = $v` yields an array in which `k` holds `v`, every other key reads as in `$c`, and the keys are those of `$c` plus `k` |
| PhpValues.Drop | src/Segment.php:122-132 | `unset($c[$k])` removes exactly `k` and keeps an array an array |
| PhpValues.Truthy | src/Segment.php:122-132 | a truthy value is set and not loosely null |
| AuraSession.Session.constructor | src/Session.php:98-113 | the cookie parameters start as the store's; no token exists yet; no cookie has been deleted |
| AuraSession.Session.NewSegment | src/Session.php:149-152 | every call gives a fresh segment object bound to this session and name, so all same-name segments reach the same store |
| AuraSession.Session.IsAvailable | src/Session.php:161-165 | with a session cookie and a store that can start, `resume()` answers true; without the cookie and without a started session, `resume()` answers false and changes nothing |
| AuraSession.Session.IsStarted | src/Session.php:174-177 | when started, `resume()` answers true and changes nothing; when not started, `commit()` changes nothing |
| AuraSession.Session.Start | src/Session.php:186-189 | the result is `session_start()`'s, and success is exactly `isStarted()` afterwards |
| AuraSession.Session.Resume | src/Session.php:199-210 | the store changes as `Resumed` says; the result is true exactly when the session is then started |
| SessionFlow.ResumeOk | src/Session.php:199-210 | `resume()` is true exactly when a session is active, or a session cookie was sent and a start can succeed |
| SessionFlow.Resumed | src/Session.php:199-210 | an active session stays as it is; without a cookie nothing is started and nothing changes; otherwise the outcome is `start()`'s; a failed resume changes nothing |
| AuraSession.Session.Clear | src/Session.php:219-222 | performs `session_unset`; if a session was active, every variable of every segment is gone |
| AuraSession.Session.Commit | src/Session.php:231-234 | performs `session_write_close`; afterwards no session is started |
| AuraSession.Session.Destroy | src/Session.php:245-266 | the store ends as `SessionDestroyed` says (start if needed, clear, destroy) and no session is started afterwards; the cookie deleter is called exactly once, with the name and the path and domain captured before clearing, when destroying worked, and not at all otherwise; the result is the destroy result |
| SessionFlow.SessionDestroySpec | src/Session.php:245-266 | specifies `SessionDestroyed`: `destroy()` succeeds exactly when a session is or can be started and the handler works; whenever a session could be started it ends inactive with no data, its record deleted on success and kept when the handler failed; when none could be started nothing changes; the name and cookie parameters are kept |
| AuraSession.Session.GetCsrfToken | src/Session.php:276-283 | the first call creates a fresh token over a fresh segment `Aura\Session\CsrfToken` of this session, a name that is not a flash key; every later call returns that same token |
| AuraSession.Session.SetCookieParams | src/Session.php:375-385 | `getCookieParams()` becomes the old parameters overridden by the given keys, whatever the extension answers; the five merged values are handed to `session_set_cookie_params`, which takes them only when no session is active |
| AuraSession.Session.RegenerateId | src/Session.php:419-426 | the result is `session_regenerate_id(true)`'s, and after a failure no session is started; when it fails or no token exists, there is no draw and the store changes only as `Regenerated` says; when it succeeds and a token exists, exactly one value is drawn and stored under the default key `value` of the token segment; no token is created |
| AuraSession.Segment.constructor | src/Segment.php:47-51 | the segment keeps its session and name |
| AuraSession.Segment.Get | src/Segment.php:64-70 | resumes (without starting) and answers the stored value of `key` when set, the caller's default otherwise |
| SegmentData.GetKey | src/Segment.php:64-70 | `get` answers the stored value when the key is present and not null, and the default when it is absent or null |
| AuraSession.Segment.GetSegment | src/Segment.php:79-85 | resumes, then answers `$_SESSION[name]`, or null when it is not set |
| SegmentData.SegmentValue | src/Segment.php:79-85 | `getSegment` answers the partition when set and null otherwise |
| AuraSession.Segment.Set | src/Segment.php:96-100 | resumes or starts, loads this segment, and stores the value under `key` of this segment's partition |
| SegmentData.SetKeySpec | src/Segment.php:96-100 | specifies `SetKey`: a write changes only key `k` of this partition: other top-level entries and the other segments' flash buckets are unchanged, and a loaded segment stays loaded |
| SegmentData.ReadYourWrite | src/Segment.php:64-70 | after `set(k, v)`, `get(k)` answers `v` (the default if `v` is null); every other key of every segment reads as before |
| AuraSession.Segment.Clear | src/Segment.php:109-114 | resumes only; if that worked the partition becomes empty; otherwise nothing changes |
| SegmentData.ClearSegmentSpec | src/Segment.php:109-114 | specifies `ClearSegment`: `clear` empties this partition and changes no other entry and no other segment's flash buckets |
| AuraSession.Segment.Remove | src/Segment.php:122-132 | resumes only; if that worked the key (or the whole partition) is removed; otherwise nothing changes |
| SegmentData.RemoveKeySpec | src/Segment.php:122-132 | specifies `RemoveKey`: a truthy key is removed from the partition and no top-level entry disappears; a null, `""` or `"0"` key unsets the whole partition; other segments are untouched |
| AuraSession.Segment.SetFlash | src/Segment.php:143-147 | resumes or starts, loads, and writes the value into the next request's bucket |
| SegmentData.SetFlashKeySpec | src/Segment.php:143-147 | a flash write changes only that key of that bucket of this segment; partitions and other buckets are unchanged, and a loaded segment stays loaded |
| SegmentData.SetFlashNextSpec | src/Segment.php:143-147 | specifies `SetFlashNext`: after `setFlash(k, v)`, `getFlashNext(k)` answers `v` (the default if null); the other next-request keys, every current-request read, other segments and all partitions are unchanged |
| AuraSession.Segment.GetFlash | src/Segment.php:160-166 | resumes, then reads the current request's bucket, with the default for a missing or null value |
| SegmentData.GetFlashKey | src/Segment.php:160-166 | a flash read answers the stored value when present and not null, and the default otherwise |
| AuraSession.Segment.ClearFlash | src/Segment.php:175-180 | resumes only; if that worked the next request's bucket is emptied |
| SegmentData.ClearFlashSpec | src/Segment.php:175-180 | specifies `ClearFlashNext` and `ClearFlashBoth`: `clearFlash` empties only the next bucket and keeps the current one; `clearFlashNow` empties both; neither touches other segments or any partition |
| AuraSession.Segment.GetFlashNext | src/Segment.php:193-199 | resumes, then reads the next request's bucket, with the default for a missing or null value |
| AuraSession.Segment.SetFlashNow | src/Segment.php:210-215 | resumes or starts, loads, and writes the value into both buckets |
| SegmentData.SetFlashBothSpec | src/Segment.php:210-215 | specifies `SetFlashBoth`: after `setFlashNow(k, v)`, both `getFlash(k)` and `getFlashNext(k)` answer `v`; each bucket gains exactly key `k`; other segments and all partitions are unchanged |
| AuraSession.Segment.ClearFlashNow | src/Segment.php:224-230 | resumes only; if that worked both buckets are emptied |
| AuraSession.Segment.KeepFlash | src/Segment.php:240-248 | resumes only; if that worked the next bucket becomes `array_merge(next, now)` |
| SegmentData.KeepFlashSpec | src/Segment.php:240-248 | specifies `KeepFlash`: the next bucket gets the keys of both buckets; a key in the current bucket takes the current value; a key only in the next bucket keeps its value; the current bucket, other segments and all partitions are unchanged |
| SegmentData.KeepFlashCurrentWins | src/Segment.php:234-248 | on a key in both buckets, the merge keeps the current request's value, not the next's as the doc comment says |
| AuraSession.Segment.ResumeSession | src/Segment.php:258-266 | the result is `resume()`'s, and when it is true this segment's containers are loaded |
| SessionFlow.SegmentResumed | src/Segment.php:258-266 | a successful resume loads this segment; a failed one changes nothing; the session is active afterwards exactly when the resume succeeded |
| AuraSession.Segment.Load | src/Segment.php:275-288 | the store's `$_SESSION` becomes `Load` of the old one and nothing else changes |
| SegmentData.InitBucket | src/Segment.php:275-288 | one step of `load()`: the bucket entry exists afterwards; an entry that was set is kept; no other top-level entry changes, and no bucket reads differently |
| SegmentData.LoadSpec | src/Segment.php:275-288 | specifies `Load`: `load()` leaves all three containers set, never overwrites one that was set, and changes no other segment's entry and no partition or bucket read; a second `load()` changes nothing |
| SegmentData.LoadKeepsFlash | src/Segment.php:275-288 | loading never changes what a flash read answers |
| SegmentData.LoadedIsFixed | src/Segment.php:275-288 | a segment whose containers all exist is left exactly as it is by `load()` |
| AuraSession.Segment.ResumeOrStartSession | src/Segment.php:297-303 | resume and load; or else start and load, whether or not the start worked |
| SessionFlow.SegmentStarted | src/Segment.php:297-303 | after resume-or-start the session is active exactly when `start()` could succeed |
| SessionFlow.ReadsDoNotStart | src/Segment.php:258-266 | with no active session and no session cookie, reads and every non-write operation change nothing at all |
| SessionFlow.FreshGetGivesDefault | src/Segment.php:258-266 | on a new request with no cookie, `get` and `getFlash` answer the caller's default and the session stays not started |
| SessionFlow.ReadResumesWithCookie | src/Segment.php:258-266 | with a session cookie and a store that can start, a read starts the session and sees the handler's record, loaded |
| SessionFlow.WritesStart | src/Segment.php:297-303 | a write leaves the session active whenever `start()` could succeed, and reaches `$_SESSION` even when it could not |
| SessionFlow.EditOnSettled | src/Segment.php:96-303 | specifies `AfterEdit` on a settled store: on an active session (or one that cannot start) every segment operation works on the current data after loading, and the store stays in that condition; any write leaves it in that condition |
| SessionFlow.WriteSettles | src/Segment.php:297-303 | after any write, resuming the segment again changes nothing |
| SessionFlow.SettledWrite | src/Segment.php:297-303 | on a settled store a later read sees exactly the write applied to the loaded data |
| SessionFlow.ResumeIdempotent | src/Segment.php:258-266 | resuming a segment twice is resuming it once |
| SessionFlow.SetThenGet | src/Segment.php:96-100 | `set(k, v)` starts the session whenever it can start, and a later `get(k)` answers `v` (the default when `v` is null) |
| AuraSession.SameNameSegmentsShare | src/Session.php:149-152 | a value set through one segment object is read back through another object of the same name |
| SessionFlow.SetIsolated | src/Segment.php:96-100 | on a settled store `set(k, v)` changes only key `k` of this partition: other keys, other segments, every flash bucket of other segments and the session status are unchanged |
| SessionFlow.SetFlashThenRead | src/Segment.php:143-147 | on any store, `setFlash(k, v)` starts the session when it can, and `getFlashNext(k)` then sees `v` in the same request (the default if null) |
| SessionFlow.SetFlashKeepsCurrent | src/Segment.php:143-147 | on a settled store, after `setFlash(k, v)`, `getFlash` sees for every key exactly what it saw before |
| SessionFlow.SetFlashNowThenRead | src/Segment.php:210-215 | on any store, `setFlashNow(k, v)` starts the session when it can, and both `getFlash(k)` and `getFlashNext(k)` then see `v` in the same request (the default if null) |
| SessionFlow.CsrfSegmentIsOrdinary | src/CsrfTokenFactory.php:55 | the token segment's name is not one of the two flash keys |
| AuraSession.CsrfToken.constructor | src/CsrfToken.php:48-52 | the token keeps its segment and random source, and writes nothing |
| AuraSession.CsrfToken.IsValid | src/CsrfToken.php:65-68 | true exactly when the given string equals the current value for `key`, obtained as `getValue` does (creating it first when loosely null); the store and the draws change exactly as `getValue`'s do |
| AuraSession.CsrfToken.GetValue | src/CsrfToken.php:79-86 | draws once exactly when the stored value is loosely null; the store ends as `TokenState` says, and the result is `TokenValue` |
| SessionFlow.TokenValueSpec | src/CsrfToken.php:79-86 | specifies `TokenValue` and `TokenState`: a stored value that is not loosely null is returned unchanged, and only the resume happens; otherwise the generated value is stored and returned |
| SessionFlow.TokenValueStable | src/CsrfToken.php:79-86 | two `getValue` calls with no regeneration in between return the same value, and the second changes nothing |
| AuraSession.CsrfToken.RegenerateValue | src/CsrfToken.php:97-103 | draws exactly once, stores the hash of that draw under `key` (set then get), and returns what was stored |
| SessionFlow.RegenerateSpec | src/CsrfToken.php:97-103 | specifies `RegeneratedState`: `regenerateValue` returns exactly the generated value; on a settled store it changes only `key` of the token segment, no other segment and not the status |
| SessionFlow.RegenerateInvalidates | src/CsrfToken.php:97-103 | the value an earlier `getValue` answered no longer validates once `regenerateValue` has stored a different value: `getValue` now answers the new value |
| AuraSession.CsrfToken.RegenerateAllKeyValues | src/CsrfToken.php:111-120 | one draw for each key the segment holds after resuming; with no keys, nothing but the resume happens; on a settled store, for an ordinary name, the key set stays the same, each key ends with the hash of a draw made in this call, and no other segment changes |
| SessionFlow.TokenKeys | src/CsrfToken.php:111-120 | the keys visited are keys of the token segment after resuming; if the resume failed they are exactly the keys the segment already had |
| AuraSession.CsrfToken.RegenerateEach | src/CsrfToken.php:114-119 | the `foreach`: one draw per key; for keys of a settled segment, every key visited holds the hash of one of the draws made, the key set is kept, and other segments are unchanged |
| AuraSession.CsrfToken.RegenerateKey | src/CsrfToken.php:116-118 | one pass of the loop draws once and extends the progress by the key visited |
| SessionFlow.DrawnValuesStep | src/CsrfToken.php:116-118 | storing the hash of the next draw under `k` adds `k` to the keys that hold drawn values |
| SessionFlow.RegeneratedNone | src/CsrfToken.php:111-120 | before the loop, no key is done and nothing has changed |
| SessionFlow.RegeneratedKeysStep | src/CsrfToken.php:116-118 | one more `regenerateValue(k)`, for a key of the token segment, keeps the progress and adds `k` |
| SessionFlow.PlacedStep | src/CsrfToken.php:116-118 | storing the first key's draw and then placing the remaining keys places every key in order: each key holds its own draw, other keys keep their values, and no key appears that was not visited |
| SessionFlow.DrawnPlaced | src/CsrfToken.php:114-119 | specifies `Drawn`, the `foreach`'s effect on the token segment's entries: for distinct keys, each key holds the hash of its own draw, every other entry is kept, and no key is added besides those drawn for |
| SessionFlow.RegenerateInOrderSpec | src/CsrfToken.php:114-119 | specifies `RegenerateInOrder`, the `foreach` taken in a given order: on a settled store the token segment changes exactly as `Drawn` says, so for distinct keys the i-th key holds the hash of draw c + i, every other key keeps its value and no key appears that was not visited; no other segment changes, and the store stays settled with the same status |
| SessionFlow.PlacedKeys | src/CsrfToken.php:114-119 | when every visited key was already in the segment, the segment's key set does not change |
| SessionFlow.InOrderMeetsProgress | src/CsrfToken.php:114-119 | visiting the segment's keys in any order of distinct keys meets the progress the loop is proved to make: the same key set, every key holding one of the draws made, and no other segment changed |
| LegacyManager.Manager.constructor | src/Aura/Session/Manager.php:81-90 | the cookie parameters start as the store's, and no token exists yet |
| LegacyManager.Manager.Start | src/Aura/Session/Manager.php:143-146 | the result is `session_start()`'s, and success is exactly `isStarted()` afterwards |
| LegacyManager.Manager.IsStarted | src/Aura/Session/Manager.php:131-134 | when no session is started, `commit()` and `destroy()` change nothing |
| LegacyManager.Manager.Clear | src/Aura/Session/Manager.php:155-158 | performs `session_unset`; if a session was active, the whole store is empty across all segments |
| LegacyManager.Manager.Commit | src/Aura/Session/Manager.php:167-170 | performs `session_write_close`; afterwards no session is started |
| LegacyManager.Manager.Destroy | src/Aura/Session/Manager.php:179-183 | clear, then destroy, without starting a session or deleting a cookie; the result is true exactly on an active session with a working handler; afterwards no session is started, and one that was active is empty |
| SessionFlow.LegacyDestroySpec | src/Aura/Session/Manager.php:179-183 | specifies `LegacyDestroyed`: the legacy destroy succeeds exactly on an active session with a working handler; an active session always ends inactive and empty, its record deleted on success and kept when the handler failed; on an inactive session nothing changes |
| LegacyManager.Manager.GetCsrfToken | src/Aura/Session/Manager.php:193-200 | the first call creates a fresh token over segment `Aura\Session\CsrfToken`, which then holds a set value; every later call returns the cached token and changes nothing |
| LegacyManager.Manager.SetCookieParams | src/Aura/Session/Manager.php:292-302 | `getCookieParams()` becomes the old parameters overridden by the given keys, whatever the extension answers; the merged values are handed to `session_set_cookie_params`, which takes them only when no session is active |
| LegacyManager.Manager.RegenerateId | src/Aura/Session/Manager.php:336-343 | the result is `session_regenerate_id(true)`'s, the store changes as `Regenerated` says, and after a failure no session is started; the token value is replaced by the hash of one new draw exactly when that succeeded and a token exists; otherwise there is no draw and the token's array is untouched |
| LegacySegment.Bag.constructor | src/Aura/Session/Segment.php:50-54 | the bound array starts with the given entries |
| LegacySegment.Segment.constructor | src/Aura/Session/Segment.php:50-54 | the segment keeps its name and the array it is bound to |
| LegacySegment.Segment.Get | src/Aura/Session/Segment.php:65-68 | `&__get` answers the stored value (null when missing); a missing key is created holding null |
| LegacySegment.Touched | src/Aura/Session/Segment.php:65-68 | taking `$data[$key]` by reference adds the key with null if it is missing, keeps a present key as it is, and changes what no key reads |
| LegacySegment.Segment.Set | src/Aura/Session/Segment.php:79-82 | `__set` stores the value under the key of the bound array |
| LegacySegment.Segment.Unset | src/Aura/Session/Segment.php:107-110 | `__unset` removes exactly the key |
| LegacySegment.Segment.Clear | src/Aura/Session/Segment.php:119-122 | `clear()` empties the bound array |
| LegacySegment.Segment.Has | src/Aura/Session/Segment.php:93-96 | `__isset` agrees with what `&__get` reads, and a key it reports as set is not changed by reading it |
| LegacySegment.SetThenGet | src/Aura/Session/Segment.php:79-82 | after `__set(k, v)`, `__isset(k)` holds exactly when `v` is not null, `__get(k)` answers `v` and changes nothing, the bound array holds `v`, and no other key reads differently |
| LegacySegment.UnsetAndTouch | src/Aura/Session/Segment.php:107-110 | after `__unset(k)`, `__isset(k)` is false and every other key reads as before; `__get` never changes what any key reads |
| LegacySegment.DirectWriteIsVisible | src/Aura/Session/Segment.php:50-54 | a value written directly to the bound array is what `__get` answers |
| LegacySegment.Segment.SetFlash | src/Aura/Session/Segment.php:145-148 | `setFlash` stores the value in the `__flash` array |
| LegacySegment.WithFlash | src/Aura/Session/Segment.php:145-148 | only the one flash key changes, and every non-flash key reads as before |
| LegacySegment.Segment.GetFlash | src/Aura/Session/Segment.php:159-166 | `getFlash` answers and removes a set flash value, and answers null and changes nothing otherwise |
| LegacySegment.TakeFlash | src/Aura/Session/Segment.php:159-166 | a set flash value is returned and removed from the flash array; otherwise null with nothing changed; non-flash keys are never touched |
| LegacySegment.FlashReadOnce | src/Aura/Session/Segment.php:145-166 | after `setFlash(k, v)` with `v` not null, `hasFlash(k)` holds and `getFlash(k)` answers `v`; then `hasFlash(k)` is false and a second `getFlash(k)` answers null; other flash values and ordinary keys are untouched |
| LegacySegment.NullFlashIsAbsent | src/Aura/Session/Segment.php:159-166 | a null flash value is never reported: `hasFlash` is false and `getFlash` answers null, changing nothing |
| LegacySegment.Segment.ClearFlash | src/Aura/Session/Segment.php:189-192 | `clearFlash()` removes the `__flash` entry |
| LegacySegment.Segment.HasFlash | src/Aura/Session/Segment.php:177-180 | `hasFlash(k)` holds exactly when `getFlash(k)` would answer a value that is not null; when it does not hold, `getFlash(k)` changes nothing |
| LegacySegment.ClearingFlashes | src/Aura/Session/Segment.php:189-192 | after `clearFlash()` no flash value is reported and every ordinary key reads as before; after `clear()` neither flash values nor keys are set |
| LegacySegment.CsrfToken.constructor | src/Aura/Session/CsrfToken.php:50-57 | afterwards `value` is set; a value already set is kept without a draw; otherwise it is the hash of exactly one new draw |
| LegacySegment.CsrfToken.GetValue | src/Aura/Session/CsrfToken.php:80-83 | answers the stored `value`, through `__get` |
| LegacySegment.GetValueSettles | src/Aura/Session/CsrfToken.php:80-83 | once `value` is set, as the constructor leaves it, `getValue` changes nothing; a second read never changes anything further, and no key reads differently |
| LegacySegment.CsrfToken.IsValid | src/Aura/Session/CsrfToken.php:68-71 | true exactly when the given value is strictly equal to the stored `value` |
| LegacySegment.CsrfToken.RegenerateValue | src/Aura/Session/CsrfToken.php:92-95 | draws exactly once and overwrites only `value`, with the hash of that draw |
| LegacySegment.RegenerateInvalidates | src/Aura/Session/CsrfToken.php:92-95 | after `regenerateValue()`, `isValid(previous)` answers true exactly when `previous` is the hash of the new draw, so any other earlier value no longer validates; no key other than `value` reads differently |

## Left out

- `src/Aura/Session/LazySegment.php`: it calls manager methods (`isActive`, `getSegment`) that the legacy manager does not have.
- The random generators, `src/Randval.php` and `src/Aura/Session/Randval.php`: they call foreign random sources. Their output is an arbitrary stream, `Randval.outputs`, and a failing generator is not modelled.
- `hash('sha512', ·)` is an arbitrary function, so nothing about digests is proved. The constant-time property of `hash_equals` cannot be expressed; it is plain equality.
- `getStatus` (src/Session.php:501-525, src/Aura/Session/Manager.php:416-419): the status is a field of the store, so the older-PHP fallback is not modelled.
- The default cookie deleter (src/Session.php:115-134) calls `setcookie` and the clock. It is recorded as a `CookieDeletion` event holding the name, path and domain, and no `setcookie` call is modelled.
- Pass-through settings with no logic, in both managers: cache expiry, cache limiter, session name, save path and `getId`.
- `src/Phpfunc.php` (call interception) is not part of this model.
- The factories and the wiring are not part of this model. Only the token segment's name, `Aura\Session\CsrfToken`, is kept.
- The legacy `newSegment` is not modelled. The legacy segment factory (src/Aura/Session/SegmentFactory.php:31-34) passes the manager where the segment expects a name, and the name where it expects the bound array.
- LegacyManager.Manager.GetCsrfToken: because of that factory, it takes the array the token segment is bound to as a parameter, a `Bag` object. That `Bag` is not tied to the store's `$_SESSION`, so the legacy `destroy` and `clear` are not shown to reach the token.
- PhpValues.Put writes into a container holding a scalar other than null as if it were an empty array. PHP raises an error there ("Cannot use a scalar value as an array", or an illegal string offset), and `array_merge` and `array_key_exists` raise a TypeError on a scalar. So `set`, `setFlash`, `setFlashNow`, `clearFlash`, `clearFlashNow`, `keepFlash`, `remove`, the bucket set-up of `load()` (through `InitBucket` and `ResetBucket`) and the legacy `setFlash` (through `WithFlash`) on a partition or bucket that holds a scalar succeed in the model but fail in PHP.
- `session_set_cookie_params` also refuses after headers have been sent. Output is not modelled, so only the refusal during an active session is.
- Numeric array keys: keys are strings, so the renumbering `array_merge` does to integer keys in `keepFlash` is not modelled.
- Moving flash values from the next-request bucket to the current one across requests: no such step exists in the code.
- The names of the two flash buckets are chosen constants. `Session::FLASH_NOW` and `Session::FLASH_NEXT` are used by src/Segment.php but are not defined in src/Session.php.
- Persistence across requests, the real save handler and locking are not modelled. A request is one run against one store.
- AuraSession.CsrfToken.RegenerateEach visits the keys as a set, in some order, and states only that each key holds one of the draws made. PHP's insertion order is not modelled in the method. SessionFlow.RegenerateInOrder gives the outcome for any given order of the keys, key by key, and SessionFlow.InOrderMeetsProgress ties that outcome to the method's promise.
- AuraSession.CsrfToken.RegenerateAllKeyValues states which keys end with new values only on a settled store (an active session, or one that cannot start) and for a segment name that is not a flash key. When a lazy start loads a different record between steps, it states only the number of draws.
- AuraSession.CsrfToken.IsValid compares `Str(value)` with the stored value. `hash_equals` with a stored value that is not a string, where PHP raises a warning, is not modelled.
- SegmentData.KeepFlash follows the code. The current request's value wins, although the doc comment at src/Segment.php:234-235 says the next request's value does.
- LegacySegment.Segment.Get models the auto-vivification of `&__get`: reading a missing key creates it holding null. So the legacy `getValue` and `isValid` can add a `value` entry, but only when none was there. The constructor always sets one first, and `LegacySegment.GetValueSettles` shows that after that nothing changes.
- Environment.Unset does nothing when no session is active, as `session_unset` does in current PHP. Under that rule the legacy `clear()` test (tests/Aura/Session/ManagerTest.php:38-51) would need an active session.
- The legacy `getCsrfToken` is documented as starting a session (src/Aura/Session/Manager.php:186-187), but its code does not start one, and neither does the model.
- The current `getCsrfToken` has the same doc comment (src/Session.php:270-271). Its code does not start a session either: the token reads the session only when a value is asked for. AuraSession.Session.GetCsrfToken does not start one.
- Methods declared only in src/SegmentInterface.php (`add`, `addFlash`, `getAllCurrentFlash`, `getAllFlashNext`, `addFlashNow`) have no implementation and are not modelled.
