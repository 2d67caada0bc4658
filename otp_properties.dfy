/** What the OTP engine guarantees, stated over the functions of OtpSpec. */
module OtpProperties {
  import opened Wrappers
  import opened PhpStrings
  import opened PasswordGenerator
  import opened CacheStore
  import opened OtpSpec

  /** An identifier's counter key is never its own code key (it is nine characters longer). */
  lemma KeysDistinct(c: Config, id: string)
    ensures AttemptKey(c, id) != CodesKey(c, id)
  {
    assert |AttemptKey(c, id)| == |CodesKey(c, id)| + 9;
  }

  /**
   * The counter key of `id` is the code key of the identifier `"_attempt_" + id`:
   * the two namespaces share one key space.
   */
  lemma AttemptKeyCollision(c: Config, id: string)
    ensures AttemptKey(c, id) == CodesKey(c, "_attempt_" + id)
  {
  }

  /** Not a password that the demo bypass accepts. */
  predicate NotDemo(c: Config, password: string) {
    !(c.demo && password in c.demoPasswords)
  }

  // ----- validate: arguments and the demo bypass -----

  /**
   * With one argument, that argument is the password and the identifier is
   * the session's; with none, `validate` throws and the cache is untouched.
   */
  lemma ValidateArguments(c: Config, s: Store, x: string, now: int, session: string)
    ensures Validate(c, s, Some(x), None, now, session) == Validate(c, s, None, Some(x), now, session)
    ensures Validate(c, s, None, Some(x), now, session) == Validate(c, s, Some(session), Some(x), now, session)
    ensures Validate(c, s, None, None, now, session) == Step(s, Failure(NullArguments))
  {
  }

  /** In demo mode a listed password passes before any cache access, whatever the identifier. */
  lemma DemoBypass(c: Config, s: Store, identifier: Option<string>, p: string, now: int, session: string)
    requires c.demo && p in c.demoPasswords
    ensures Validate(c, s, identifier, Some(p), now, session) == Step(s, Success(DemoPass))
  {
  }

  // ----- validate: the three rejections -----

  /** At or over the attempt limit `validate` rejects and changes nothing, even for a correct password. */
  lemma AttemptLimitLeavesStoreUnchanged(c: Config, s: Store, id: string, p: string, now: int, session: string)
    requires NotDemo(c, p)
    requires AttemptLimitReached(Get(s, AttemptKey(c, id), now), c.attempts)
    ensures Validate(c, s, Some(id), Some(p), now, session) == Step(s, Success(Rejected(MaxAttempt)))
  {
  }

  /**
   * Below the limit, an unknown fingerprint is `invalid` and a known one past
   * its expiry is `expired`; either way the counter is written as one more
   * than it was and the code set stays exactly as it was.
   */
  lemma FailurePaths(c: Config, s: Store, id: string, p: string, now: int, session: string)
    requires NotDemo(c, p)
    requires !AttemptLimitReached(Get(s, AttemptKey(c, id), now), c.attempts)
    requires var codes := StoredCodes(Get(s, CodesKey(c, id), now));
             var key := Fingerprint(Normalise(c, p));
             !(key in codes && now <= codes[key].expires)
    ensures var codes := StoredCodes(Get(s, CodesKey(c, id), now));
            var key := Fingerprint(Normalise(c, p));
            var r := Validate(c, s, Some(id), Some(p), now, session);
            var count := AttemptCount(Get(s, AttemptKey(c, id), now)) + 1;
            && r.result == Success(Rejected(if key !in codes then Invalid else Expired))
            && r.store == Put(s, AttemptKey(c, id), Count(count), Ttl(c), now)
            && (Ttl(c) > 0 ==> Get(r.store, AttemptKey(c, id), now) == Some(Count(count)))
            && (forall t :: Get(r.store, CodesKey(c, id), t) == Get(s, CodesKey(c, id), t))
  {
    KeysDistinct(c, id);
  }

  /**
   * An expired password stays `expired` on resubmission, at any later time,
   * for as long as the cache still holds the code set and the limit is not
   * reached: the rejection does not remove the entry.
   */
  lemma ExpiredIsSticky(c: Config, s: Store, id: string, p: string, now: int, later: int, session: string)
    requires NotDemo(c, p)
    requires Validate(c, s, Some(id), Some(p), now, session).result == Success(Rejected(Expired))
    requires now <= later
    requires Get(s, CodesKey(c, id), later).Some?
    requires var s1 := Validate(c, s, Some(id), Some(p), now, session).store;
             !AttemptLimitReached(Get(s1, AttemptKey(c, id), later), c.attempts)
    ensures var s1 := Validate(c, s, Some(id), Some(p), now, session).store;
            Validate(c, s1, Some(id), Some(p), later, session).result == Success(Rejected(Expired))
  {
    KeysDistinct(c, id);
    var s1 := Validate(c, s, Some(id), Some(p), now, session).store;
    assert Get(s1, CodesKey(c, id), later) == Get(s, CodesKey(c, id), later);
    assert Get(s, CodesKey(c, id), later) == Get(s, CodesKey(c, id), now);
  }

  // ----- validate: success -----

  /**
   * A known, unexpired fingerprint below the limit is accepted, with the
   * payload exactly when it is not empty. The counter is deleted. The code set
   * is left alone with `skip`, deleted whole when `disposable`, and otherwise
   * rewritten without the used fingerprint alone. No other key changes.
   */
  lemma SuccessPath(c: Config, s: Store, id: string, p: string, now: int, session: string)
    requires NotDemo(c, p)
    requires !AttemptLimitReached(Get(s, AttemptKey(c, id), now), c.attempts)
    requires var codes := StoredCodes(Get(s, CodesKey(c, id), now));
             var key := Fingerprint(Normalise(c, p));
             key in codes && now <= codes[key].expires
    ensures var codes := StoredCodes(Get(s, CodesKey(c, id), now));
            var key := Fingerprint(Normalise(c, p));
            var r := Validate(c, s, Some(id), Some(p), now, session);
            && r.result == Success(Accepted(if EmptyData(codes[key].data) then None else codes[key].data))
            && AttemptKey(c, id) !in r.store
            && (c.skip ==> forall t :: Get(r.store, CodesKey(c, id), t) == Get(s, CodesKey(c, id), t))
            && (!c.skip && c.disposable ==> CodesKey(c, id) !in r.store)
            && (!c.skip && !c.disposable ==>
                  r.store == Delete(Put(s, CodesKey(c, id), Codes(codes - {key}), Ttl(c), now), AttemptKey(c, id)))
            && (forall k :: k != CodesKey(c, id) && k != AttemptKey(c, id) ==>
                  (k in r.store <==> k in s) && (k in s ==> r.store[k] == s[k]))
  {
    KeysDistinct(c, id);
  }

  /** With `disposable` (and no `skip`) a success revokes every code: any later password is `invalid`. */
  lemma DisposableConsumesAll(c: Config, s: Store, id: string, p: string, q: string, now: int, later: int, session: string)
    requires c.disposable && !c.skip && c.attempts > 0
    requires NotDemo(c, q)
    requires Validate(c, s, Some(id), Some(p), now, session).result.Success?
    requires Validate(c, s, Some(id), Some(p), now, session).result.value.Accepted?
    ensures var s1 := Validate(c, s, Some(id), Some(p), now, session).store;
            Validate(c, s1, Some(id), Some(q), later, session).result == Success(Rejected(Invalid))
  {
    KeysDistinct(c, id);
  }

  /**
   * Without `disposable` (and no `skip`) a success removes only the used
   * fingerprint: the same password is `invalid` afterwards, while another
   * issued and unexpired password is still accepted.
   */
  lemma NonDisposableConsumesOne(c: Config, s: Store, id: string, p: string, q: string, now: int, session: string)
    requires !c.disposable && !c.skip && c.attempts > 0 && Ttl(c) > 0
    requires NotDemo(c, p) && NotDemo(c, q)
    requires !AttemptLimitReached(Get(s, AttemptKey(c, id), now), c.attempts)
    requires var codes := StoredCodes(Get(s, CodesKey(c, id), now));
             var key := Fingerprint(Normalise(c, p));
             var other := Fingerprint(Normalise(c, q));
             && key in codes && now <= codes[key].expires
             && other != key && other in codes && now <= codes[other].expires
    ensures var s1 := Validate(c, s, Some(id), Some(p), now, session).store;
            && Validate(c, s1, Some(id), Some(p), now, session).result == Success(Rejected(Invalid))
            && Validate(c, s1, Some(id), Some(q), now, session).result.Success?
            && Validate(c, s1, Some(id), Some(q), now, session).result.value.Accepted?
  {
    KeysDistinct(c, id);
    var codes := StoredCodes(Get(s, CodesKey(c, id), now));
    var key := Fingerprint(Normalise(c, p));
    assert key in codes && now <= codes[key].expires;
    var s1 := Validate(c, s, Some(id), Some(p), now, session).store;
    assert Get(s1, CodesKey(c, id), now) == Some(Codes(codes - {key}));
    assert Get(s1, AttemptKey(c, id), now) == None;
  }

  // ----- generate -----

  /** A failed generation writes nothing. */
  lemma GenerateFailureKeepsStore(c: Config, s: Store, id: string, shuffle: Shuffler, now: int)
    requires Generate(c, s, id, shuffle, now).result.Failure?
    ensures Generate(c, s, id, shuffle, now).store == s
  {
  }

  /**
   * `generate` succeeds exactly when the password generator does and, in
   * repeated mode, the identifier's code key does not hold a counter.
   */
  lemma GenerateSucceedsIff(c: Config, s: Store, id: string, shuffle: Shuffler, now: int)
    ensures var charset := Charset(c.format, c.customize, c.sensitive);
            var lengths := Lengths(c.length);
            var prior := Get(s, CodesKey(c, id), now);
            Generate(c, s, id, shuffle, now).result.Success? <==>
              && (|lengths| == 0 || (|charset| > 0 && forall k :: 0 <= k < |lengths| ==> lengths[k] > -|charset|))
              && !(c.repeated && prior.Some? && prior.value.Count?)
  {
    GenerationSucceedsIff(Charset(c.format, c.customize, c.sensitive), Lengths(c.length), c.separator, shuffle);
  }

  /** When case does not matter the returned password is its own upper case. */
  lemma GeneratedIsUpper(c: Config, s: Store, id: string, shuffle: Shuffler, now: int)
    requires !c.sensitive
    requires Generate(c, s, id, shuffle, now).result.Success?
    ensures var p := Generate(c, s, id, shuffle, now).result.value;
            Upper(p) == p
  {
    UpperIdempotent(NewPassword(c, shuffle).value);
  }

  /**
   * The issued entry expires `expires` minutes from now and carries the
   * current payload. In repeated mode every entry the cache still held is
   * kept, expired ones included, and exactly the new fingerprint is added or
   * overwritten; otherwise the set holds the new entry alone. Nothing but the
   * code key changes.
   */
  lemma IssuedCodeSet(c: Config, s: Store, id: string, shuffle: Shuffler, now: int)
    requires Ttl(c) > 0
    requires Generate(c, s, id, shuffle, now).result.Success?
    ensures var g := Generate(c, s, id, shuffle, now);
            var key := Fingerprint(g.result.value);
            var prior := StoredCodes(Get(s, CodesKey(c, id), now));
            Get(g.store, CodesKey(c, id), now).Some? &&
            var codes := StoredCodes(Get(g.store, CodesKey(c, id), now));
            && Get(g.store, CodesKey(c, id), now).value.Codes?
            && key in codes && codes[key] == Entry(now + c.expires * 60, c.data)
            && (c.repeated ==> codes.Keys == prior.Keys + {key} &&
                               forall f :: f in prior && f != key ==> codes[f] == prior[f])
            && (!c.repeated ==> codes.Keys == {key})
            && (forall k :: k != CodesKey(c, id) ==> (k in g.store <==> k in s) && (k in s ==> g.store[k] == s[k]))
  {
  }

  /**
   * Issue then check with no time passing: the returned password (and, when
   * case does not matter, any case variant of it) passes, provided the expiry
   * is positive, the check uses the same case setting, and the counter is
   * below the limit the check applies. Outside the demo list it is accepted
   * with the issued payload.
   */
  lemma RoundTrip(c: Config, s: Store, id: string, shuffle: Shuffler, now: int, vopts: ValidateOptions, q: string, session: string)
    requires c.expires > 0
    requires Generate(c, s, id, shuffle, now).result.Success?
    requires ApplyValidateOptions(c, vopts).sensitive == c.sensitive
    requires !AttemptLimitReached(Get(s, AttemptKey(c, id), now), ApplyValidateOptions(c, vopts).attempts)
    requires var p := Generate(c, s, id, shuffle, now).result.value;
             q == p || (!c.sensitive && SameIgnoringCase(q, p))
    ensures var g := Generate(c, s, id, shuffle, now);
            var v := ApplyValidateOptions(c, vopts);
            var r := Validate(v, g.store, Some(id), Some(q), now, session);
            && r.result.Success? && r.result.value.Status()
            && (NotDemo(v, q) ==> r.result == Success(Accepted(if EmptyData(c.data) then None else c.data)))
  {
    var g := Generate(c, s, id, shuffle, now);
    var v := ApplyValidateOptions(c, vopts);
    var p := g.result.value;
    var raw := NewPassword(c, shuffle).value;
    KeysDistinct(c, id);
    assert Normalise(v, q) == p by {
      if !c.sensitive {
        UpperIdempotent(raw);
        UpperEqualIff(q, p);
      }
    }
    assert Get(g.store, AttemptKey(c, id), now) == Get(s, AttemptKey(c, id), now);
    IssuedCodeSet(c, s, id, shuffle, now);
  }

  /**
   * In repeated mode two passwords issued one after the other both pass:
   * the second issue keeps the first.
   */
  lemma RepeatedKeepsBoth(c: Config, s: Store, id: string, shuffle1: Shuffler, shuffle2: Shuffler, now: int, session: string)
    requires c.repeated && c.expires > 0
    requires Generate(c, s, id, shuffle1, now).result.Success?
    requires var g1 := Generate(c, s, id, shuffle1, now);
             Generate(c, g1.store, id, shuffle2, now).result.Success?
    requires !AttemptLimitReached(Get(s, AttemptKey(c, id), now), c.attempts)
    ensures var g1 := Generate(c, s, id, shuffle1, now);
            var g2 := Generate(c, g1.store, id, shuffle2, now);
            && Validate(c, g2.store, Some(id), Some(g1.result.value), now, session).result.value.Status()
            && Validate(c, g2.store, Some(id), Some(g2.result.value), now, session).result.value.Status()
  {
    var g1 := Generate(c, s, id, shuffle1, now);
    var g2 := Generate(c, g1.store, id, shuffle2, now);
    KeysDistinct(c, id);
    IssuedCodeSet(c, s, id, shuffle1, now);
    IssuedCodeSet(c, g1.store, id, shuffle2, now);
    var p1 := g1.result.value;
    var p2 := g2.result.value;
    assert Normalise(c, p1) == p1 && Normalise(c, p2) == p2 by {
      if !c.sensitive {
        UpperIdempotent(NewPassword(c, shuffle1).value);
        UpperIdempotent(NewPassword(c, shuffle2).value);
      }
    }
    var codes := StoredCodes(Get(g2.store, CodesKey(c, id), now));
    assert p1 in codes && codes[p1].expires >= now;
    assert Get(g2.store, AttemptKey(c, id), now) == Get(s, AttemptKey(c, id), now);
  }

  /** Without repeated mode a new issue invalidates every earlier, different password. */
  lemma NotRepeatedReplaces(c: Config, s: Store, id: string, shuffle: Shuffler, now: int, earlier: string, session: string)
    requires !c.repeated && c.expires > 0
    requires Generate(c, s, id, shuffle, now).result.Success?
    requires Fingerprint(Normalise(c, earlier)) != Fingerprint(Generate(c, s, id, shuffle, now).result.value)
    requires NotDemo(c, earlier)
    requires !AttemptLimitReached(Get(s, AttemptKey(c, id), now), c.attempts)
    ensures Validate(c, Generate(c, s, id, shuffle, now).store, Some(id), Some(earlier), now, session).result
            == Success(Rejected(Invalid))
  {
    KeysDistinct(c, id);
    IssuedCodeSet(c, s, id, shuffle, now);
    var g := Generate(c, s, id, shuffle, now);
    assert Get(g.store, AttemptKey(c, id), now) == Get(s, AttemptKey(c, id), now);
  }

  // ----- the attempt counter across calls -----

  /** Checks the passwords in order, at one time, for one identifier; the cache at the end. */
  function ValidateAll(c: Config, s: Store, id: string, passwords: seq<string>, now: int): Store {
    if |passwords| == 0 then s
    else Validate(c, ValidateAll(c, s, id, passwords[..|passwords| - 1], now), Some(id), Some(passwords[|passwords| - 1]), now, id).store
  }

  /** A password the code set at `now` does not accept (unknown or expired). */
  predicate Rejects(codes: map<string, Entry>, c: Config, p: string, now: int) {
    var key := Fingerprint(Normalise(c, p));
    !(key in codes && now <= codes[key].expires)
  }

  /**
   * Each rejected password adds exactly one to the counter and leaves the
   * code set alone: after k failures from a fresh counter, k is stored.
   */
  lemma {:induction false} FailuresCount(c: Config, s: Store, id: string, wrong: seq<string>, now: int)
    requires c.expires > 0
    requires Get(s, AttemptKey(c, id), now).None?
    requires |wrong| <= c.attempts
    requires forall k :: 0 <= k < |wrong| ==>
               (NotDemo(c, wrong[k]) && Rejects(StoredCodes(Get(s, CodesKey(c, id), now)), c, wrong[k], now))
    ensures var s1 := ValidateAll(c, s, id, wrong, now);
            && Get(s1, AttemptKey(c, id), now) == (if |wrong| == 0 then None else Some(Count(|wrong|)))
            && Get(s1, CodesKey(c, id), now) == Get(s, CodesKey(c, id), now)
  {
    if |wrong| > 0 {
      var init := wrong[..|wrong| - 1];
      assert forall k :: 0 <= k < |init| ==> init[k] == wrong[k];
      FailuresCount(c, s, id, init, now);
      var s0 := ValidateAll(c, s, id, init, now);
      FailurePaths(c, s0, id, wrong[|wrong| - 1], now, id);
    }
  }

  /**
   * After `attempts` rejected passwords the identifier is locked out: even a
   * correct password gets `max_attempt`, and the call consumes nothing.
   */
  lemma LockedOutAfterAttempts(c: Config, s: Store, id: string, wrong: seq<string>, p: string, now: int, session: string)
    requires c.expires > 0 && c.attempts >= 1
    requires Get(s, AttemptKey(c, id), now).None?
    requires |wrong| == c.attempts
    requires forall k :: 0 <= k < |wrong| ==>
               (NotDemo(c, wrong[k]) && Rejects(StoredCodes(Get(s, CodesKey(c, id), now)), c, wrong[k], now))
    requires NotDemo(c, p)
    ensures var s1 := ValidateAll(c, s, id, wrong, now);
            Validate(c, s1, Some(id), Some(p), now, session) == Step(s1, Success(Rejected(MaxAttempt)))
  {
    FailuresCount(c, s, id, wrong, now);
  }

  // ----- forget and resetAttempt -----

  /**
   * `forget` with a password removes exactly that fingerprint, compared as
   * given (no case normalisation), and answers whether it was there;
   * otherwise it changes nothing.
   */
  lemma ForgetOne(c: Config, s: Store, id: string, p: string, now: int)
    ensures var codes := StoredCodes(Get(s, CodesKey(c, id), now));
            var r := Forget(c, s, id, Some(p), now);
            && (r.result <==> p in codes)
            && (!r.result ==> r.store == s)
            && (r.result && Ttl(c) > 0 ==> Get(r.store, CodesKey(c, id), now) == Some(Codes(codes - {p})))
            && (forall k :: k != CodesKey(c, id) ==> (k in r.store <==> k in s) && (k in s ==> r.store[k] == s[k]))
  {
  }

  /** `forget` without a password deletes the whole code set, keeps the counter, and returns true. */
  lemma ForgetAll(c: Config, s: Store, id: string, now: int)
    ensures var r := Forget(c, s, id, None, now);
            && r.result
            && CodesKey(c, id) !in r.store
            && (forall k :: k != CodesKey(c, id) ==> (k in r.store <==> k in s) && (k in s ==> r.store[k] == s[k]))
  {
  }

  /** `resetAttempt` deletes the counter only, always returns true, and is idempotent. */
  lemma ResetAttemptIdempotent(c: Config, s: Store, id: string)
    ensures var r := ResetAttempt(c, s, id);
            && r.result
            && AttemptKey(c, id) !in r.store
            && (forall k :: k != AttemptKey(c, id) ==> (k in r.store <==> k in s) && (k in s ==> r.store[k] == s[k]))
            && ResetAttempt(c, r.store, id) == r
  {
  }
}
