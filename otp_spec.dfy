/**
 * The OTP engine as functions of its configuration and of the cache: each
 * public operation of class `Otp` (generate, validate, forget, resetAttempt)
 * is a function from the settings in force, the cache contents, the
 * arguments and the current time to the new cache contents and the result.
 * The class in otp.dfy is proved to behave as these functions say.
 */
module OtpSpec {
  import opened Wrappers
  import opened PhpStrings
  import opened PasswordGenerator
  import opened CacheStore

  /** The instance settings of class `Otp`. */
  datatype Config = Config(
    format: string,
    customize: Option<string>,
    length: LengthSpec,
    separator: string,
    sensitive: bool,
    expires: int,
    attempts: int,
    repeated: bool,
    disposable: bool,
    prefix: string,
    data: Option<string>,
    skip: bool,
    demo: bool,
    demoPasswords: seq<string>)

  /** The property initialisers of class `Otp`. */
  const DEFAULTS := Config("numeric", None, Single(6), "-", false, 15, 5, true, true, "OTPPX_", None, false, false,
                           ["1234", "123456", "12345678"])

  /** The `$options` keys `generate` honours; `None` is an unset (or null) key. */
  datatype GenerateOptions = GenerateOptions(
    format: Option<string>,
    customize: Option<string>,
    length: Option<LengthSpec>,
    separator: Option<string>,
    sensitive: Option<bool>,
    expires: Option<int>,
    repeated: Option<bool>,
    prefix: Option<string>,
    data: Option<string>)

  /** The `$options` keys `validate` honours. */
  datatype ValidateOptions = ValidateOptions(
    attempts: Option<int>,
    sensitive: Option<bool>,
    disposable: Option<bool>,
    skip: Option<bool>)

  /** Every given option is written into the instance setting of the same name, for good. */
  function ApplyGenerateOptions(c: Config, o: GenerateOptions): Config {
    Config(o.format.GetOr(c.format),
           if o.customize.Some? then o.customize else c.customize,
           o.length.GetOr(c.length),
           o.separator.GetOr(c.separator),
           o.sensitive.GetOr(c.sensitive),
           o.expires.GetOr(c.expires),
           c.attempts,
           o.repeated.GetOr(c.repeated),
           c.disposable,
           o.prefix.GetOr(c.prefix),
           if o.data.Some? then o.data else c.data,
           c.skip, c.demo, c.demoPasswords)
  }

  function ApplyValidateOptions(c: Config, o: ValidateOptions): Config {
    Config(c.format, c.customize, c.length, c.separator,
           o.sensitive.GetOr(c.sensitive),
           c.expires,
           o.attempts.GetOr(c.attempts),
           c.repeated,
           o.disposable.GetOr(c.disposable),
           c.prefix, c.data,
           o.skip.GetOr(c.skip),
           c.demo, c.demoPasswords)
  }

  /**
   * What `generate` throws: the generator's own failure, or (PHP 8) the
   * assignment into a stored attempt counter when an identifier's code key
   * holds a counter.
   */
  datatype GenerateError = PasswordFailure(cause: GeneratorFailure) | ScalarAsArray

  datatype ErrorKind = MaxAttempt | Invalid | Expired

  /** The object `validate` returns: `{status, demo}`, `{status, error}` or `{status, data?}`. */
  datatype Outcome = DemoPass | Rejected(error: ErrorKind) | Accepted(data: Option<string>) {
    predicate Status() { !Rejected? }
  }

  /** `validate` with neither argument throws. */
  datatype ValidateError = NullArguments

  /** The cache after an operation, and what the operation returned. */
  datatype Step<T> = Step(store: Store, result: T)

  /** A missing identifier falls back to the session id. */
  function ResolveId(identifier: Option<string>, session: string): string {
    identifier.GetOr(session)
  }

  /** The cache key of an identifier's code set. */
  function CodesKey(c: Config, id: string): string { c.prefix + id }

  /** The cache key of an identifier's failed-attempt counter. */
  function AttemptKey(c: Config, id: string): string { c.prefix + ("_attempt_" + id) }

  /** `writeData` keeps every value for three times the expiry, in seconds. */
  function Ttl(c: Config): int { c.expires * 60 * 3 }

  /** `md5`, standing for an injective fingerprint: the password itself. */
  function Fingerprint(password: string): string { password }

  /** The case normalisation applied on both issue and check. */
  function Normalise(c: Config, password: string): string {
    if c.sensitive then password else Upper(password)
  }

  /** PHP's `empty()` on a payload: null, "" and "0" are empty. */
  predicate EmptyData(data: Option<string>) {
    data.None? || data.value == "" || data.value == "0"
  }

  /** The code set read from a key; a missing key reads the default `[]`, and `isset` on a counter finds nothing. */
  function StoredCodes(v: Option<Value>): map<string, Entry> {
    match v
    case Some(Codes(m)) => m
    case _ => map[]
  }

  /** `$attempt >= $this->attempts`; a code set compared with an integer is always the greater. */
  predicate AttemptLimitReached(v: Option<Value>, attempts: int) {
    match v
    case None => 0 >= attempts
    case Some(Count(n)) => n >= attempts
    case Some(Codes(_)) => true
  }

  /** The stored counter, 0 when there is none. */
  function AttemptCount(v: Option<Value>): int {
    match v
    case Some(Count(n)) => n
    case _ => 0
  }

  /** `generateNewPassword` under the given settings. */
  function NewPassword(c: Config, shuffle: Shuffler): Result<string, GeneratorFailure> {
    GeneratePassword(Charset(c.format, c.customize, c.sensitive), Lengths(c.length), c.separator, shuffle)
  }

  /** `generate`, after its options are applied, for the resolved identifier. */
  function Generate(c: Config, s: Store, id: string, shuffle: Shuffler, now: int): Step<Result<string, GenerateError>> {
    var prior := if c.repeated then Get(s, CodesKey(c, id), now) else None;
    match NewPassword(c, shuffle)
    case Failure(e) => Step(s, Failure(PasswordFailure(e)))
    case Success(raw) =>
      var password := Normalise(c, raw);
      if prior.Some? && prior.value.Count? then Step(s, Failure(ScalarAsArray))
      else
        var entry := Entry(now + c.expires * 60, c.data);
        var codes := StoredCodes(prior)[Fingerprint(password) := entry];
        Step(Put(s, CodesKey(c, id), Codes(codes), Ttl(c), now), Success(password))
  }

  /** `forget` for the resolved identifier: one fingerprint, or (no password) the whole code set. */
  function Forget(c: Config, s: Store, id: string, password: Option<string>, now: int): Step<bool> {
    match password
    case Some(p) =>
      var codes := StoredCodes(Get(s, CodesKey(c, id), now));
      if Fingerprint(p) !in codes then Step(s, false)
      else Step(Put(s, CodesKey(c, id), Codes(codes - {Fingerprint(p)}), Ttl(c), now), true)
    case None => Step(Delete(s, CodesKey(c, id)), true)
  }

  /** `resetAttempt` for the resolved identifier. */
  function ResetAttempt(c: Config, s: Store, id: string): Step<bool> {
    Step(Delete(s, AttemptKey(c, id)), true)
  }

  /** `validate`, after its options are applied, with its arguments as given. */
  function Validate(c: Config, s: Store, identifier: Option<string>, password: Option<string>, now: int, session: string)
    : Step<Result<Outcome, ValidateError>>
  {
    if password.None? && identifier.None? then Step(s, Failure(NullArguments))
    else
      var submitted := if password.None? then identifier.value else password.value;
      var named := if password.None? then None else identifier;
      if c.demo && submitted in c.demoPasswords then Step(s, Success(DemoPass))
      else
        var r := CheckPassword(c, s, ResolveId(named, session), submitted, now);
        Step(r.store, Success(r.result))
  }

  /** The part of `validate` after the demo bypass: the attempt limit, the lookup, and the bookkeeping. */
  function CheckPassword(c: Config, s: Store, id: string, submitted: string, now: int): Step<Outcome> {
    var counter := Get(s, AttemptKey(c, id), now);
    if AttemptLimitReached(counter, c.attempts) then Step(s, Rejected(MaxAttempt))
    else
      var codes := StoredCodes(Get(s, CodesKey(c, id), now));
      var key := Fingerprint(Normalise(c, submitted));
      var failed := Put(s, AttemptKey(c, id), Count(AttemptCount(counter) + 1), Ttl(c), now);
      if key !in codes then Step(failed, Rejected(Invalid))
      else if now > codes[key].expires then Step(failed, Rejected(Expired))
      else
        var data := codes[key].data;
        Step(Consume(c, s, id, Normalise(c, submitted), now), Accepted(if EmptyData(data) then None else data))
  }

  /** After a success: the `skip`/`disposable` forget step, then the counter reset. */
  function Consume(c: Config, s: Store, id: string, password: string, now: int): Store {
    var kept := if c.skip then s else Forget(c, s, id, if !c.disposable then Some(password) else None, now).store;
    ResetAttempt(c, kept, id).store
  }
}
