/**
 * Class `Otp`: the settings as fields that calls overwrite, the shared cache
 * as a map field, and the public operations as methods that update both in
 * the order the class does. Each method is proved to produce exactly the
 * settings, cache and result that the matching OtpSpec function gives.
 */
module OtpEngine {
  import opened Wrappers
  import opened PhpStrings
  import opened PasswordGenerator
  import opened CacheStore
  import opened OtpSpec

  class Otp {
    var format: string
    var customize: Option<string>
    var length: LengthSpec
    var separator: string
    var sensitive: bool
    var expires: int
    var attempts: int
    var repeated: bool
    var disposable: bool
    var prefix: string
    var data: Option<string>
    var skip: bool
    var demo: bool
    var demoPasswords: seq<string>
    /** The contents of the cache the instance reads and writes. */
    var store: Store

    /** The settings currently held by the fields. */
    function Settings(): Config
      reads this
    {
      Config(format, customize, length, separator, sensitive, expires, attempts, repeated, disposable,
             prefix, data, skip, demo, demoPasswords)
    }

    /** A new instance has the default settings and works on the given cache. */
    constructor (cache: Store)
      ensures Settings() == DEFAULTS && store == cache
    {
      format, customize, length, separator := "numeric", None, Single(6), "-";
      sensitive, expires, attempts := false, 15, 5;
      repeated, disposable, prefix, data := true, true, "OTPPX_", None;
      skip, demo, demoPasswords := false, false, ["1234", "123456", "12345678"];
      store := cache;
    }

    // ----- the `set<Property>` setters -----

    method SetFormat(value: string)
      modifies this
      ensures Settings() == old(Settings()).(format := value) && store == old(store)
    {
      format := value;
    }

    /** Setting a custom charset also switches the format to `customize`. */
    method SetCustomize(value: Option<string>)
      modifies this
      ensures Settings() == old(Settings()).(customize := value, format := "customize") && store == old(store)
    {
      customize := value;
      format := "customize";
    }

    method SetLength(value: LengthSpec)
      modifies this
      ensures Settings() == old(Settings()).(length := value) && store == old(store)
    {
      length := value;
    }

    method SetSeparator(value: string)
      modifies this
      ensures Settings() == old(Settings()).(separator := value) && store == old(store)
    {
      separator := value;
    }

    method SetSensitive(value: bool)
      modifies this
      ensures Settings() == old(Settings()).(sensitive := value) && store == old(store)
    {
      sensitive := value;
    }

    method SetExpires(value: int)
      modifies this
      ensures Settings() == old(Settings()).(expires := value) && store == old(store)
    {
      expires := value;
    }

    method SetAttempts(value: int)
      modifies this
      ensures Settings() == old(Settings()).(attempts := value) && store == old(store)
    {
      attempts := value;
    }

    method SetRepeated(value: bool)
      modifies this
      ensures Settings() == old(Settings()).(repeated := value) && store == old(store)
    {
      repeated := value;
    }

    method SetDisposable(value: bool)
      modifies this
      ensures Settings() == old(Settings()).(disposable := value) && store == old(store)
    {
      disposable := value;
    }

    method SetPrefix(value: string)
      modifies this
      ensures Settings() == old(Settings()).(prefix := value) && store == old(store)
    {
      prefix := value;
    }

    method SetData(value: Option<string>)
      modifies this
      ensures Settings() == old(Settings()).(data := value) && store == old(store)
    {
      data := value;
    }

    method SetSkip(value: bool)
      modifies this
      ensures Settings() == old(Settings()).(skip := value) && store == old(store)
    {
      skip := value;
    }

    method SetDemo(value: bool)
      modifies this
      ensures Settings() == old(Settings()).(demo := value) && store == old(store)
    {
      demo := value;
    }

    // ----- cache access: every key is prefixed -----

    function ReadData(key: string, now: int): Option<Value>
      reads this
    {
      Get(store, prefix + key, now)
    }

    method WriteData(key: string, value: Value, now: int)
      modifies this`store
      ensures store == Put(old(store), prefix + key, value, Ttl(Settings()), now)
    {
      store := Put(store, prefix + key, value, expires * 60 * 3, now);
    }

    method DeleteData(key: string)
      modifies this`store
      ensures store == Delete(old(store), prefix + key)
    {
      store := Delete(store, prefix + key);
    }

    // ----- the operations -----

    /** Overwrites every setting, one group of fields at a time. */
    method Configure(c: Config)
      modifies this
      ensures Settings() == c && store == old(store)
    {
      AdoptPasswordSettings(c);
      AdoptCheckSettings(c);
      AdoptStorageSettings(c);
      AdoptDemoSettings(c);
    }

    /** Overwrites the settings that shape a password. */
    method AdoptPasswordSettings(c: Config)
      modifies this
      ensures Settings() == old(Settings()).(format := c.format, customize := c.customize, length := c.length, separator := c.separator) && store == old(store)
    {
      format, customize, length, separator := c.format, c.customize, c.length, c.separator;
    }

    /** Overwrites the case, lifetime and reuse settings. */
    method AdoptCheckSettings(c: Config)
      modifies this
      ensures Settings() == old(Settings()).(sensitive := c.sensitive, expires := c.expires, attempts := c.attempts, repeated := c.repeated) && store == old(store)
    {
      sensitive, expires, attempts, repeated := c.sensitive, c.expires, c.attempts, c.repeated;
    }

    /** Overwrites the settings that decide what is stored and consumed. */
    method AdoptStorageSettings(c: Config)
      modifies this
      ensures Settings() == old(Settings()).(disposable := c.disposable, prefix := c.prefix, data := c.data, skip := c.skip) && store == old(store)
    {
      disposable, prefix, data, skip := c.disposable, c.prefix, c.data, c.skip;
    }

    /** Overwrites the demo settings. */
    method AdoptDemoSettings(c: Config)
      modifies this
      ensures Settings() == old(Settings()).(demo := c.demo, demoPasswords := c.demoPasswords) && store == old(store)
    {
      demo, demoPasswords := c.demo, c.demoPasswords;
    }

    /** Each option `generate` honours overwrites the setting of the same name. */
    method TakeGenerateOptions(options: GenerateOptions)
      modifies this
      ensures Settings() == ApplyGenerateOptions(old(Settings()), options) && store == old(store)
    {
      Configure(ApplyGenerateOptions(Settings(), options));
    }

    /** Each option `validate` honours overwrites the setting of the same name. */
    method TakeValidateOptions(options: ValidateOptions)
      modifies this
      ensures Settings() == ApplyValidateOptions(old(Settings()), options) && store == old(store)
    {
      Configure(ApplyValidateOptions(Settings(), options));
    }

    /** Builds one segment per requested length and joins them with the separator. */
    method GenerateNewPassword(shuffle: Shuffler) returns (r: Result<string, GeneratorFailure>)
      ensures r == NewPassword(Settings(), shuffle)
    {
      var charset := Charset(format, customize, sensitive);
      var lengths := Lengths(length);
      var parts: seq<string> := [];
      for i := 0 to |lengths|
        invariant Segments(charset, lengths[..i], shuffle) == Success(parts)
      {
        SegmentsStep(charset, lengths, shuffle, i, parts);
        if |charset| == 0 {
          return Failure(EmptyCharset);
        }
        var times := CeilDiv(lengths[i], |charset|);
        if times < 0 {
          return Failure(NegativeRepeat);
        }
        parts := parts + [Substr(shuffle(i, Repeat(charset, times)), 1, lengths[i])];
      }
      assert lengths[..|lengths|] == lengths;
      return Success(Join(separator, parts));
    }

    /** Issues a password for the identifier (the session's when absent) and stores its fingerprint. */
    method Generate(identifier: Option<string>, options: GenerateOptions, shuffle: Shuffler, now: int, session: string)
      returns (r: Result<string, GenerateError>)
      modifies this
      ensures Settings() == ApplyGenerateOptions(old(Settings()), options)
      ensures Step(store, r) == OtpSpec.Generate(Settings(), old(store), ResolveId(identifier, session), shuffle, now)
    {
      TakeGenerateOptions(options);
      ghost var settings := Settings();

      var id := if identifier.Some? then identifier.value else session;
      var codes := if repeated then ReadData(id, now).GetOr(Codes(map[])) else Codes(map[]);
      var generated := GenerateNewPassword(shuffle);
      if generated.Failure? {
        return Failure(PasswordFailure(generated.error));
      }
      var password := generated.value;
      if !sensitive {
        password := Upper(password);
      }
      if codes.Count? {
        return Failure(ScalarAsArray);
      }
      codes := Codes(codes.codes[Fingerprint(password) := Entry(now + expires * 60, data)]);
      WriteData(id, codes, now);
      return Success(password);
    }

    /**
     * Checks a password for the identifier. Called with only one of the two,
     * that one is the password and the identifier is the session's.
     */
    method Validate(identifier: Option<string>, password: Option<string>, options: ValidateOptions, now: int, session: string)
      returns (r: Result<Outcome, ValidateError>)
      modifies this
      ensures Settings() == ApplyValidateOptions(old(Settings()), options)
      ensures Step(store, r) == OtpSpec.Validate(Settings(), old(store), identifier, password, now, session)
    {
      TakeValidateOptions(options);
      r := Check(identifier, password, now, session);
    }

    /** The body of `validate` once its options are in force. */
    method Check(identifier: Option<string>, password: Option<string>, now: int, session: string)
      returns (r: Result<Outcome, ValidateError>)
      modifies this`store
      ensures Step(store, r) == OtpSpec.Validate(Settings(), old(store), identifier, password, now, session)
    {

      var named := identifier;
      var submitted: string;
      if password.None? {
        if identifier.None? {
          return Failure(NullArguments);
        }
        submitted := identifier.value;
        named := None;
      } else {
        submitted := password.value;
      }

      if demo && submitted in demoPasswords {
        return Success(DemoPass);
      }

      var id := if named.Some? then named.value else session;
      var outcome := CheckPassword(id, submitted, now);
      return Success(outcome);
    }

    /** Enforces the attempt limit, looks the password up, and does the bookkeeping of the outcome. */
    method CheckPassword(id: string, password: string, now: int) returns (r: Outcome)
      modifies this`store
      ensures Step(store, r) == OtpSpec.CheckPassword(Settings(), old(store), id, password, now)
    {
      var attempt := ReadData("_attempt_" + id, now);
      if AttemptLimitReached(attempt, attempts) {
        return Rejected(MaxAttempt);
      }

      var codes := StoredCodes(ReadData(id, now));
      var submitted := password;
      if !sensitive {
        submitted := Upper(submitted);
      }

      if Fingerprint(submitted) !in codes {
        WriteData("_attempt_" + id, Count(AttemptCount(attempt) + 1), now);
        return Rejected(Invalid);
      }

      if now > codes[Fingerprint(submitted)].expires {
        WriteData("_attempt_" + id, Count(AttemptCount(attempt) + 1), now);
        return Rejected(Expired);
      }

      var response := Accepted(None);
      if !EmptyData(codes[Fingerprint(submitted)].data) {
        response := Accepted(codes[Fingerprint(submitted)].data);
      }

      // The identifier is given to both calls, so neither falls back to a session id.
      if !skip {
        var _ := Forget(Some(id), if !disposable then Some(submitted) else None, now, id);
      }
      var _ := ResetAttempt(Some(id), id);
      return response;
    }

    /** Revokes one password of the identifier, or all of them when no password is given. */
    method Forget(identifier: Option<string>, password: Option<string>, now: int, session: string) returns (ok: bool)
      modifies this`store
      ensures Step(store, ok) == OtpSpec.Forget(Settings(), old(store), ResolveId(identifier, session), password, now)
    {
      var id := if identifier.Some? then identifier.value else session;
      if password.Some? {
        var codes := StoredCodes(ReadData(id, now));
        if Fingerprint(password.value) !in codes {
          return false;
        }
        WriteData(id, Codes(codes - {Fingerprint(password.value)}), now);
        return true;
      }
      DeleteData(id);
      return true;
    }

    /** Deletes the identifier's failed-attempt counter. */
    method ResetAttempt(identifier: Option<string>, session: string) returns (ok: bool)
      modifies this`store
      ensures Step(store, ok) == OtpSpec.ResetAttempt(Settings(), old(store), ResolveId(identifier, session))
    {
      var id := if identifier.Some? then identifier.value else session;
      DeleteData("_attempt_" + id);
      return true;
    }
  }
}
