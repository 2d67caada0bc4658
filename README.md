# laravel-otp: the `Otp` class in Dafny

The package issues short-lived one-time passwords bound to an identifier (a
user id, or the session id when none is given), keeps them in Laravel's cache
under a key prefix, and checks submitted passwords. A check applies, in
order: a demo bypass, a failed-attempt limit, a fingerprint lookup and an
expiry check. It then does the bookkeeping that the `skip`, `disposable`
and `repeated` settings ask for. This project models that class and proves
what its operations do to the cache and what they return.

The files, in dependency order:

- `wrappers.dfy` — `Option` and `Result`.
- `strings.dfy` (module `PhpStrings`) — the PHP 8 string built-ins the class calls:
  - `strtoupper` (ASCII only), `substr` and `str_repeat`;
  - `implode`;
  - `explode`, which is only used to state what `implode` produced.
- `password.dfy` (module `PasswordGenerator`) — `generateNewPassword` as pure functions: charset choice, `ceil`, one segment per requested length, and the join. It also has the lemmas about the generated password's shape.
- `cache.dfy` (module `CacheStore`) — the cache as a map from full keys to a value plus an eviction time. `Get`, `Put` (ttl ≤ 0 removes the key, as Laravel's repository does) and `Delete`.
- `otp_spec.dfy` (module `OtpSpec`) — the settings record, the defaults, and the per-call options. `generate`, `validate`, `forget` and `resetAttempt` are written as functions from settings and cache to the new cache and the result.
- `otp_properties.dfy` (module `OtpProperties`) — what those operations guarantee, as lemmas: round trip, lockout, rejection paths, consumption rules, and issuance.
- `otp.dfy` (module `OtpEngine`) — `class Otp`. It has:
  - the class's fields, plus the cache as a `store` field;
  - the setters;
  - the imperative `generate`, `validate`, `forget`, `resetAttempt` and `generateNewPassword`. Each is proved to leave exactly the cache, fields and result that the `OtpSpec` function gives.

Modelling choices:

- **Time and session.** `time()` is the parameter `now`. `session()->getId()` is the parameter `session`.
- **`md5`.** It is `Fingerprint`, the identity. It stands for an injective hash.
- **`str_shuffle`.** It is the parameter `shuffle`: `shuffle(k, t)` is the answer of the k-th call of one generation. Properties that need a real shuffle assume that every answer is a permutation of its input.
- **Cache eviction.**
  - Every `writeData` sets the key's eviction time to `now + expires*60*3` seconds (the branch `writeData` takes on Laravel 5.8 to 9; see "## Left out").
  - A key is visible while `now` is before that time.
  - A password entry is accepted while `now <= expires`, where `expires` is `now + expires*60` at issue time.
- **Code set and counter.** Both live in one key space:
  - the code set is at `prefix + id`;
  - the counter is at `prefix + "_attempt_" + id`;
  - the model keeps PHP 8's behaviour when one key holds the other kind of value:
    - a code set under a counter key compares as "limit reached";
    - `isset` on a counter is false;
    - adding a password to a counter throws.
- **Generator failures.** Three situations make `generateNewPassword` throw, and the model reports them as `GeneratorFailure` results:
  - an unknown format: the lookup `$formats[$this->format]` raises PHP 8's "Undefined array key" warning, Laravel's error handler turns it into an `ErrorException`, and the `catch` rethrows it as the generic "Fail to generate password" exception;
  - a null or empty `customize` charset: `strlen` is 0 and the division throws `DivisionByZeroError`, a PHP `Error` that the `catch (\Exception)` does not catch;
  - a length at or below minus the charset size: `str_repeat` gets a negative count and throws `ValueError`, also an `Error` that escapes the `catch`.
  The model gives the first two the one cause `EmptyCharset` (an unknown format has the empty charset) and the third `NegativeRepeat`. No contract depends on which PHP error is thrown, only on whether one is.

Where the package's documented behaviour and its code differ, the model follows the code:

- **Segment length.** A segment does not have exactly the requested length. `substr(..., 1, L)` starts at offset 1, so the segment is one character short when the charset size divides L. A length of 0 gives an empty segment.
- **`disposable` = false.** The used password is not kept reusable: `forget` is called with it, so that one fingerprint is removed.
- **`disposable` = true.** `forget` is called without a password, so every password of the identifier is revoked, not only the used one.
- **Options persist.** Per-call options overwrite the instance's settings and stay in force for later calls.

## Model

| member | source | states |
|---|---|---|
| OtpEngine.Otp.constructor | src/Otp.php:11-24 | a new instance holds the default settings (numeric, length 6, separator `-`, case-insensitive, 15 minutes, 5 attempts, repeated, disposable, prefix `OTPPX_`, no payload, no skip, demo off with its three demo passwords) and works on the given cache |
| OtpEngine.Otp.SetFormat | src/Otp.php:33-49 | `setFormat` overwrites exactly that setting and leaves the cache alone |
| OtpEngine.Otp.SetCustomize | src/Otp.php:44-47 | `setCustomize` stores the charset and also switches the format to `customize`, nothing else |
| OtpEngine.Otp.SetLength | src/Otp.php:33-49 | `setLength` overwrites exactly that setting |
| OtpEngine.Otp.SetSeparator | src/Otp.php:33-49 | `setSeparator` overwrites exactly that setting |
| OtpEngine.Otp.SetSensitive | src/Otp.php:33-49 | `setSensitive` overwrites exactly that setting |
| OtpEngine.Otp.SetExpires | src/Otp.php:33-49 | `setExpires` overwrites exactly that setting |
| OtpEngine.Otp.SetAttempts | src/Otp.php:33-49 | `setAttempts` overwrites exactly that setting |
| OtpEngine.Otp.SetRepeated | src/Otp.php:33-49 | `setRepeated` overwrites exactly that setting |
| OtpEngine.Otp.SetDisposable | src/Otp.php:33-49 | `setDisposable` overwrites exactly that setting |
| OtpEngine.Otp.SetPrefix | src/Otp.php:33-49 | `setPrefix` overwrites exactly that setting |
| OtpEngine.Otp.SetData | src/Otp.php:33-49 | `setData` overwrites exactly that setting |
| OtpEngine.Otp.SetSkip | src/Otp.php:33-49 | `setSkip` overwrites exactly that setting |
| OtpEngine.Otp.SetDemo | src/Otp.php:33-49 | `setDemo` overwrites exactly that setting |
| OtpEngine.Otp.WriteData | src/Otp.php:179-186 | the value is put under the prefixed key with a lifetime of three times the expiry, in seconds; every other key is kept |
| OtpEngine.Otp.DeleteData | src/Otp.php:193-196 | the prefixed key is removed and nothing else |
| OtpEngine.Otp.TakeGenerateOptions | src/Otp.php:53-55 | each of the nine options `generate` reads overwrites its setting for good, the others stay |
| OtpEngine.Otp.TakeValidateOptions | src/Otp.php:71-73 | each of the four options `validate` reads overwrites its setting for good, the others stay |
| OtpEngine.Otp.GenerateNewPassword | src/Otp.php:156-177 | the loop over the lengths returns exactly the generator function's password or its error, the first failing segment ending it |
| OtpEngine.Otp.Generate | src/Otp.php:51-67 | options applied, then the cache and the result are exactly those of `OtpSpec.Generate` for the resolved identifier |
| OtpEngine.Otp.Validate | src/Otp.php:69-130 | options applied, then the cache and the result are exactly those of `OtpSpec.Validate` |
| OtpEngine.Otp.Check | src/Otp.php:75-90 | argument swap, null check and demo bypass give `OtpSpec.Validate`'s outcome and cache |
| OtpEngine.Otp.CheckPassword | src/Otp.php:91-129 | attempt limit, lookup, the counter writes and the forget and reset on success give `OtpSpec.CheckPassword`'s outcome and cache |
| OtpEngine.Otp.Forget | src/Otp.php:132-147 | result and cache are exactly those of `OtpSpec.Forget` for the resolved identifier |
| OtpEngine.Otp.ResetAttempt | src/Otp.php:149-154 | result and cache are exactly those of `OtpSpec.ResetAttempt` for the resolved identifier |
| OtpEngine.Otp.ReadData | src/Otp.php:188-191 | definition of `readData`: the prefixed key read through the cache; the caller supplies the default; properties in `CacheStore.GetAfterPut` and `CacheStore.OtherKeysUnaffected` |
| OtpEngine.Otp.Configure | src/Otp.php:53-73 | every setting takes the given value and the cache stays; used by `OtpEngine.Otp.TakeGenerateOptions` and `OtpEngine.Otp.TakeValidateOptions` for the option loops of lines 53-55 and 71-73 |
| OtpEngine.Otp.AdoptPasswordSettings | src/Otp.php:53-55 | format, customize, length and separator take the given values, nothing else changes; part of `OtpEngine.Otp.Configure` |
| OtpEngine.Otp.AdoptCheckSettings | src/Otp.php:53-73 | sensitive, expires, attempts and repeated take the given values, nothing else changes; part of `OtpEngine.Otp.Configure` |
| OtpEngine.Otp.AdoptStorageSettings | src/Otp.php:53-73 | disposable, prefix, data and skip take the given values, nothing else changes; part of `OtpEngine.Otp.Configure` |
| OtpEngine.Otp.AdoptDemoSettings | src/Otp.php:23-24 | demo and the demo passwords take the given values, nothing else changes; part of `OtpEngine.Otp.Configure`, where neither option loop changes them |
| OtpSpec.NewPassword | src/Otp.php:156-177 | definition of `generateNewPassword` under the current settings; properties in `OtpEngine.Otp.GenerateNewPassword`, `PasswordGenerator.PasswordShape` and `OtpProperties.GeneratedIsUpper` |
| OtpSpec.Normalise | src/Otp.php:60 | definition of the upper-casing applied when case does not matter (lines 60 and 100); properties in `PhpStrings.UpperEqualIff` and `OtpProperties.RoundTrip` |
| OtpSpec.EmptyData | src/Otp.php:122 | definition of `empty()` on the payload; properties in `OtpProperties.SuccessPath` |
| OtpSpec.Ttl | src/Otp.php:181-185 | definition of the cache lifetime `expires*60*3`; properties in `OtpProperties.IssuedCodeSet` |
| OtpSpec.AttemptCount | src/Otp.php:91-103 | definition of the counter read with default 0 (lines 91 and 103); properties in `OtpProperties.FailurePaths` and `OtpProperties.FailuresCount` |
| OtpSpec.ResolveId | src/Otp.php:57 | definition of the session default for the identifier (lines 57, 90, 134 and 151); properties in `OtpProperties.ValidateArguments` |
| OtpSpec.CodesKey | src/Otp.php:188-191 | definition of the code-set key `prefix + id` (lines 99 and 190); properties in `OtpProperties.KeysDistinct` and `OtpProperties.AttemptKeyCollision` |
| OtpSpec.AttemptKey | src/Otp.php:91 | definition of the counter key `prefix + "_attempt_" + id`; properties in `OtpProperties.KeysDistinct` and `OtpProperties.AttemptKeyCollision` |
| OtpSpec.Fingerprint | src/Otp.php:61 | the identity standing for `md5` (lines 61 and 102); injective by definition, used by `OtpProperties.ForgetOne` and `OtpProperties.NotRepeatedReplaces` |
| PasswordGenerator.Lengths | src/Otp.php:166 | definition of `is_array($length) ? $length : [$length]`; properties in `PasswordGenerator.SegmentsShape` |
| PhpStrings.UpperChar | src/Otp.php:60 | `strtoupper` on one character: `a`..`z` go to the letter 32 code points lower, every other character is unchanged |
| CacheStore.Get | src/Otp.php:188-191 | definition of `Cache::get` under eviction; what a read returns after writes is proved in `CacheStore.GetAfterPut` and `CacheStore.OtherKeysUnaffected` |
| CacheStore.Put | src/Otp.php:185 | a positive lifetime stores the value until now plus the lifetime, otherwise the key is removed; other keys are unchanged |
| CacheStore.Delete | src/Otp.php:195 | the key is gone and all other keys are unchanged |
| CacheStore.GetAfterPut | src/Otp.php:185 | a write is read back at any later time before its eviction and is gone afterwards; a non-positive lifetime reads back nothing |
| CacheStore.OtherKeysUnaffected | src/Otp.php:185-195 | writing or deleting one key never changes what another key reads |
| PhpStrings.Upper | src/Otp.php:60 | `strtoupper` keeps the length and maps exactly `a`..`z` to upper case, position by position |
| PhpStrings.UpperIdempotent | src/Otp.php:60 | upper-casing twice is upper-casing once |
| PhpStrings.UpperEqualIff | src/Otp.php:100 | two strings have the same upper case if and only if they differ only in the ASCII case of letters |
| PhpStrings.Substr | src/Otp.php:170 | PHP 8 `substr` length for non-negative and negative lengths, and each character taken from its offset |
| PhpStrings.Repeat | src/Otp.php:170 | `str_repeat` has count times the length and only the input's characters |
| PhpStrings.ExplodeJoin | src/Otp.php:173 | `implode` with a one-character separator no part contains can be split back into exactly the parts |
| PasswordGenerator.CeilDiv | src/Otp.php:170 | `ceil(L/n)` is the least r with L ≤ n·r; it is negative exactly when L ≤ -n and at least one exactly when L ≥ 1 |
| PasswordGenerator.Segments | src/Otp.php:169-171 | a successful generation builds one segment per requested length |
| PasswordGenerator.SegmentShape | src/Otp.php:170 | a segment has `min(L, n·ceil(L/n) - 1)` characters (0 when that is not positive), all from the charset |
| PasswordGenerator.SegmentLengthShortByOne | src/Otp.php:170 | for L ≥ 1 a segment is one short exactly when n divides L, otherwise exactly L; for -n < L ≤ 0 it is empty |
| PasswordGenerator.SegmentsShape | src/Otp.php:166-171 | every segment of a generation has its length and only charset characters |
| PasswordGenerator.GenerationSucceedsIff | src/Otp.php:159-176 | generation succeeds if and only if there are no lengths, or the charset is non-empty and every length is above minus its size |
| PasswordGenerator.PasswordShape | src/Otp.php:166-173 | with a one-character separator outside the charset, the password splits into one part per length, each of its segment length and from the charset |
| PasswordGenerator.BuiltInInsensitiveIsUpper | src/Otp.php:159-173 | in case-insensitive mode a built-in format with an upper-case separator generates a password that `strtoupper` leaves as it is |
| OtpSpec.ApplyGenerateOptions | src/Otp.php:53-55 | definition: each of the nine options that is set replaces its setting; properties in `OtpEngine.Otp.TakeGenerateOptions` |
| OtpSpec.ApplyValidateOptions | src/Otp.php:71-73 | definition: each of the four options that is set replaces its setting; properties in `OtpEngine.Otp.TakeValidateOptions` |
| OtpSpec.StoredCodes | src/Otp.php:99-102 | definition: a missing key or a counter reads as the empty code set (`isset` on an integer is false); properties in `OtpProperties.FailurePaths` |
| OtpSpec.AttemptLimitReached | src/Otp.php:91-92 | definition: the counter, 0 when missing, compared with `attempts`, and a code set always at the limit (PHP 8 array-to-int comparison); properties in `OtpProperties.AttemptLimitLeavesStoreUnchanged` and `OtpProperties.LockedOutAfterAttempts` |
| OtpSpec.Generate | src/Otp.php:57-67 | definition of `generate` after its options; properties in `OtpProperties.IssuedCodeSet`, `OtpProperties.GenerateSucceedsIff` and `OtpProperties.RoundTrip` |
| OtpSpec.Validate | src/Otp.php:75-90 | definition of `validate` after its options, up to the session default; properties in `OtpProperties.ValidateArguments` and `OtpProperties.DemoBypass` |
| OtpSpec.CheckPassword | src/Otp.php:91-129 | definition of the rest of `validate`; properties in `OtpProperties.FailurePaths`, `OtpProperties.SuccessPath` and `OtpProperties.FailuresCount` |
| OtpSpec.Consume | src/Otp.php:126-127 | definition of the forget-then-reset on success; properties in `OtpProperties.SuccessPath`, `OtpProperties.DisposableConsumesAll` and `OtpProperties.NonDisposableConsumesOne` |
| OtpSpec.Forget | src/Otp.php:132-147 | definition of `forget`; properties in `OtpProperties.ForgetOne` and `OtpProperties.ForgetAll` |
| OtpSpec.ResetAttempt | src/Otp.php:149-154 | definition of `resetAttempt`; properties in `OtpProperties.ResetAttemptIdempotent` |
| PasswordGenerator.Charset | src/Otp.php:159-164 | definition of the format lookup, the empty charset for an unknown format or no custom charset; properties in `PasswordGenerator.GenerationSucceedsIff` and `PasswordGenerator.BuiltInInsensitiveIsUpper` |
| PasswordGenerator.Segment | src/Otp.php:170 | definition of one segment; properties in `PasswordGenerator.SegmentShape` |
| PasswordGenerator.GeneratePassword | src/Otp.php:166-173 | definition of the generator; properties in `PasswordGenerator.PasswordShape`, `PasswordGenerator.PasswordChars` and `PasswordGenerator.GenerationSucceedsIff` |
| PasswordGenerator.PasswordChars | src/Otp.php:166-173 | every character of a generated password, for any separator, is a charset character or a separator character |
| PhpStrings.Join | src/Otp.php:173 | definition of `implode`; properties in `PhpStrings.ExplodeJoin` and `PasswordGenerator.PasswordChars` |
| OtpProperties.KeysDistinct | src/Otp.php:91-99 | an identifier's counter key differs from its code key |
| OtpProperties.AttemptKeyCollision | src/Otp.php:91-103 | the counter key of `id` is the code key of the identifier `_attempt_` + `id` |
| OtpProperties.ValidateArguments | src/Otp.php:75-81 | one argument is the password, checked for the session; none throws and leaves the cache alone |
| OtpProperties.DemoBypass | src/Otp.php:83-88 | in demo mode a listed password passes as demo for any identifier and leaves the cache untouched |
| OtpProperties.AttemptLimitLeavesStoreUnchanged | src/Otp.php:91-97 | at or over the limit the answer is `max_attempt` and the cache is unchanged |
| OtpProperties.FailurePaths | src/Otp.php:102-116 | below the limit an unknown fingerprint is `invalid` and an expired one `expired`, the counter becomes one more than it was, and the code set and all other keys are unchanged |
| OtpProperties.ExpiredIsSticky | src/Otp.php:110-116 | an expired password is `expired` again at any later time, while the cache holds its set and the limit is not reached |
| OtpProperties.SuccessPath | src/Otp.php:118-147 | a known unexpired fingerprint is accepted with its payload exactly when the payload is not empty; the counter is deleted; the set is kept with `skip`, deleted when `disposable`, else loses only that fingerprint |
| OtpProperties.DisposableConsumesAll | src/Otp.php:126-145 | after a disposable success every password of the identifier is `invalid` |
| OtpProperties.NonDisposableConsumesOne | src/Otp.php:126-142 | after a non-disposable success the same password is `invalid` while another issued, unexpired password is still accepted |
| OtpProperties.GenerateFailureKeepsStore | src/Otp.php:59 | a failed generation writes nothing |
| OtpProperties.GenerateSucceedsIff | src/Otp.php:58-65 | `generate` succeeds if and only if the generator does and, in repeated mode, the code key holds no counter |
| OtpProperties.GeneratedIsUpper | src/Otp.php:60 | in case-insensitive mode the returned password is its own upper case |
| OtpProperties.IssuedCodeSet | src/Otp.php:58-65 | the new entry expires `expires` minutes from now with the current payload; repeated mode keeps every earlier entry, expired ones included, and adds or overwrites exactly one; otherwise the set is that one entry; no other key changes |
| OtpProperties.RoundTrip | src/Otp.php:51-129 | with a positive expiry, no time passing and the counter below the limit, the issued password, and in case-insensitive mode every case variant of it, is accepted with the issued payload |
| OtpProperties.RepeatedKeepsBoth | src/Otp.php:58-65 | in repeated mode two passwords issued one after the other both pass |
| OtpProperties.NotRepeatedReplaces | src/Otp.php:58-65 | without repeated mode an earlier, different password is `invalid` after a new issue |
| OtpProperties.FailuresCount | src/Otp.php:91-116 | k rejected passwords from a fresh counter leave the counter at k and the code set unchanged |
| OtpProperties.LockedOutAfterAttempts | src/Otp.php:91-97 | after `attempts` rejections even a correct password gets `max_attempt` and nothing is consumed |
| OtpProperties.ForgetOne | src/Otp.php:132-142 | `forget` with a password removes exactly that fingerprint, compared without case normalisation, and answers whether it was there; otherwise it changes nothing |
| OtpProperties.ForgetAll | src/Otp.php:145-146 | `forget` without a password deletes the whole set, keeps the counter, and returns true |
| OtpProperties.ResetAttemptIdempotent | src/Otp.php:149-154 | `resetAttempt` deletes only the counter, returns true, and a second call changes nothing |

## Left out

- The constructor's configuration loading (src/Otp.php:26-31) reads Laravel's `config()`, which is foreign I/O. The constructor starts from the declared defaults only. In the real constructor, empty or falsy configured values are ignored. The configuration key `cache_prefix` is never read, because the constructor looks for `prefix`.
- `__call` dispatch by method name through `Str::camel` is replaced by one setter per property:
  - Unknown names, which return without effect, are not modelled.
  - `setDemoPasswords` maps to the non-existent property `demoPasswords`, so it is a no-op and has no setter here.
  - A setter called without an argument stores null. That is not modelled for settings whose type here has no null.
- Laravel's cache internals are not modelled: drivers, serialisation, and the exact clock of eviction. The `app()->version() >= "5.8"` test (src/Otp.php:182) is assumed to take the ≥ 5.8 branch, giving a lifetime of `expires*60*3` seconds. That holds for Laravel 5.8 to 9 only: PHP compares the two version strings as strings, so for Laravel 10 and later ("10.…" sorts before "5.8") the other branch runs and the lifetime is `expires*3` seconds, which the model does not capture.
- Strings stand for PHP byte strings, one Dafny character per byte. `strlen`, `str_shuffle`, `substr` and `strtoupper` count and move bytes, so only charsets, separators and passwords of single-byte (ASCII) characters are modelled. A multi-byte custom charset such as `"é1"` has a different length in PHP and can yield a segment with a lone byte of a character; the model does not capture that.
- PasswordGenerator.SegmentsShape, PasswordGenerator.PasswordShape and PasswordGenerator.PasswordChars: "from the charset" holds for the bytes of a charset; they are stated over characters, which is the same only for single-byte charsets.
- `md5` is the identity, so hash collisions are not modelled.
- `str_shuffle`'s randomness is a parameter. The model says nothing about the distribution of passwords.
- `in_array` in the demo check is loose comparison in PHP. The model uses exact string membership.
- Payload data is a string or null here. Arrays or other PHP values as payloads are not modelled; `empty()` is modelled for null, `""` and `"0"`.
- The `try`/`catch` in `generateNewPassword` is not modelled as such: which PHP exception or error escapes (the rewrapped "Fail to generate password" exception for an unknown format, an uncaught `DivisionByZeroError` or `ValueError` otherwise) is not distinguished; the model reports a `GeneratorFailure` with the cause `EmptyCharset` or `NegativeRepeat`.
- PHP 7 behaviour (warnings instead of `DivisionByZeroError` or `ValueError`, and `substr` returning false) is not modelled. PHP 8 is assumed throughout.
- Concurrent requests, and the read-modify-write race on a code set, are not modelled. Every operation is sequential.
- The validation-rule adapter (src/Rules/OtpValidate.php), the service provider and the facade are Laravel wiring and translation lookups, and are not part of this model.
