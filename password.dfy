/**
 * The password generator (`generateNewPassword`): for each requested length it
 * tiles the format's charset, shuffles the tiles, cuts a piece starting at
 * offset 1, and joins the pieces with the separator.
 *
 * `str_shuffle` is random; here it is a parameter `shuffle`, where
 * `shuffle(k, t)` is what the k-th `str_shuffle` call of one generation
 * returns for the tiled string `t`. Properties that need a real shuffle assume
 * `IsShuffle(shuffle)`: every answer is a permutation of its input.
 */
module PasswordGenerator {
  import opened Wrappers
  import opened PhpStrings

  const STRING_SENSITIVE_CHARSET := "23456789abcdefghjkmnpqrstuvwxyzABCDEFGHJKMNPQRSTUVWXYZ"
  const STRING_INSENSITIVE_CHARSET := "23456789ABCDEFGHJKLMNPQRSTUVWXYZ"
  const NUMERIC_CHARSET := "0123456789"
  const NUMERIC_NO_ZERO_CHARSET := "123456789"

  /** The `length` setting: one integer, or an array of integers (one per segment). */
  datatype LengthSpec = Single(n: int) | Many(ns: seq<int>)

  /** What a generation can throw: division by a zero-length charset, or `str_repeat` with a negative count. */
  datatype GeneratorFailure = EmptyCharset | NegativeRepeat

  type Shuffler = (nat, string) -> string

  /** `is_array($length) ? $length : [$length]`. */
  function Lengths(spec: LengthSpec): seq<int> {
    match spec
    case Single(n) => [n]
    case Many(ns) => ns
  }

  /**
   * The charset of a format. An unknown format, and `customize` with no
   * charset set, look up null, whose `strlen` is 0: both are "" here.
   */
  function Charset(format: string, customize: Option<string>, sensitive: bool): string {
    if format == "string" then
      (if sensitive then STRING_SENSITIVE_CHARSET else STRING_INSENSITIVE_CHARSET)
    else if format == "numeric" then NUMERIC_CHARSET
    else if format == "numeric-no-zero" then NUMERIC_NO_ZERO_CHARSET
    else if format == "customize" then customize.GetOr("")
    else ""
  }

  /** `ceil($length / $n)` for integers: the least multiple count covering `length`. */
  function CeilDiv(length: int, n: int): (r: int)
    requires n > 0
    ensures n * (r - 1) < length <= n * r
    ensures r < 0 <==> length <= -n
    ensures r >= 1 <==> length >= 1
  {
    if length >= 0 then
      var q := (length + n - 1) / n;
      DivBounds(length + n - 1, n);
      assert q >= 1 <==> length >= 1 by {
        if length >= 1 { DivAtLeastOne(length + n - 1, n); }
      }
      q
    else
      var q := (-length) / n;
      DivBounds(-length, n);
      assert q >= 1 <==> -length >= n by {
        if -length >= n { DivAtLeastOne(-length, n); }
      }
      -q
  }

  lemma DivBounds(a: int, n: int)
    requires a >= 0 && n > 0
    ensures n * (a / n) <= a < n * (a / n) + n
  {
  }

  lemma DivAtLeastOne(a: int, n: int)
    requires a >= n > 0
    ensures a / n >= 1
  {
    DivBounds(a, n);
  }

  /** One segment: `substr(str_shuffle(str_repeat($x, ceil($length / strlen($x)))), 1, $length)`. */
  function Segment(charset: string, length: int, shuffle: Shuffler, k: nat): Result<string, GeneratorFailure> {
    if |charset| == 0 then Failure(EmptyCharset)
    else
      var times := CeilDiv(length, |charset|);
      if times < 0 then Failure(NegativeRepeat)
      else Success(Substr(shuffle(k, Repeat(charset, times)), 1, length))
  }

  /** The segments in order; the first one that throws ends the generation. */
  function Segments(charset: string, lengths: seq<int>, shuffle: Shuffler): (r: Result<seq<string>, GeneratorFailure>)
    ensures r.Success? ==> |r.value| == |lengths|
  {
    if |lengths| == 0 then Success([])
    else
      match Segments(charset, lengths[..|lengths| - 1], shuffle)
      case Failure(e) => Failure(e)
      case Success(prev) =>
        match Segment(charset, lengths[|lengths| - 1], shuffle, |lengths| - 1)
        case Failure(e) => Failure(e)
        case Success(seg) => Success(prev + [seg])
  }

  /** One more length extends the segments by that length's segment, unless it throws. */
  lemma SegmentsStep(charset: string, lengths: seq<int>, shuffle: Shuffler, i: nat, parts: seq<string>)
    requires i < |lengths|
    requires Segments(charset, lengths[..i], shuffle) == Success(parts)
    ensures Segment(charset, lengths[i], shuffle, i).Success? ==>
              Segments(charset, lengths[..i + 1], shuffle) == Success(parts + [Segment(charset, lengths[i], shuffle, i).value])
    ensures Segment(charset, lengths[i], shuffle, i).Failure? ==>
              Segments(charset, lengths, shuffle) == Failure(Segment(charset, lengths[i], shuffle, i).error)
  {
    assert lengths[..i + 1][..i] == lengths[..i];
    if Segment(charset, lengths[i], shuffle, i).Failure? {
      SegmentsPrefixFailure(charset, lengths, shuffle, i + 1);
    }
  }

  /** Once a prefix of the lengths throws, the whole generation throws the same error. */
  lemma {:induction false} SegmentsPrefixFailure(charset: string, lengths: seq<int>, shuffle: Shuffler, j: nat)
    requires j <= |lengths|
    requires Segments(charset, lengths[..j], shuffle).Failure?
    ensures Segments(charset, lengths, shuffle) == Segments(charset, lengths[..j], shuffle)
    decreases |lengths| - j
  {
    if j < |lengths| {
      assert lengths[..j + 1][..j] == lengths[..j];
      SegmentsPrefixFailure(charset, lengths, shuffle, j + 1);
    } else {
      assert lengths[..j] == lengths;
    }
  }

  /** `implode($separator, $segments)` over the generated segments. */
  function GeneratePassword(charset: string, lengths: seq<int>, separator: string, shuffle: Shuffler): Result<string, GeneratorFailure> {
    match Segments(charset, lengths, shuffle)
    case Failure(e) => Failure(e)
    case Success(parts) => Success(Join(separator, parts))
  }

  /** `str_shuffle` permutes its argument. */
  ghost predicate IsShuffle(shuffle: Shuffler) {
    forall k, t :: multiset(shuffle(k, t)) == multiset(t)
  }

  /**
   * The length the code actually produces for a requested length: the tiled
   * string has `n * ceil(L / n)` characters and the cut starts at offset 1,
   * so at most that many minus one survive.
   */
  function SegmentLength(length: int, n: int): int
    requires n > 0
  {
    var times := CeilDiv(length, n);
    if times <= 0 then 0 else Min(length, n * times - 1)
  }

  /** A generated segment has `SegmentLength` characters, all from the charset. */
  lemma SegmentShape(charset: string, length: int, shuffle: Shuffler, k: nat)
    requires IsShuffle(shuffle)
    requires Segment(charset, length, shuffle, k).Success?
    ensures |charset| > 0
    ensures |Segment(charset, length, shuffle, k).value| == SegmentLength(length, |charset|)
    ensures forall c :: c in Segment(charset, length, shuffle, k).value ==> c in charset
  {
    var n := |charset|;
    var times := CeilDiv(length, n);
    var tiled := Repeat(charset, times);
    var shuffled := shuffle(k, tiled);
    assert multiset(shuffled) == multiset(tiled);
    assert |shuffled| == |tiled| by {
      assert |multiset(shuffled)| == |shuffled| && |multiset(tiled)| == |tiled|;
    }
    var seg := Substr(shuffled, 1, length);
    assert seg == Segment(charset, length, shuffle, k).value;
    if times >= 1 {
      assert n * times >= n;
    }
    forall c | c in seg ensures c in charset {
      var i :| 0 <= i < |seg| && seg[i] == c;
      assert shuffled[1 + i] == c;
      assert c in multiset(shuffled);
      assert c in multiset(tiled);
    }
  }

  /**
   * A requested length L over a charset of n characters gives a segment one
   * character short exactly when n divides L; a length of zero, or a negative
   * one above -n, gives an empty segment.
   */
  lemma SegmentLengthShortByOne(length: int, n: int)
    requires n > 0
    ensures length >= 1 ==> SegmentLength(length, n) == if length % n == 0 then length - 1 else length
    ensures -n < length <= 0 ==> SegmentLength(length, n) == 0
  {
    var r := CeilDiv(length, n);
    if length >= 1 {
      var q := length / n;
      var m := length % n;
      assert length == n * q + m;
      // n * (r - 1) < n * q + m <= n * r, with 0 <= m < n, pins r down.
      MulLeImplies(n, q + 1, r - 1);
      assert n * (q + 1) == n * q + n;
      assert r - 1 < q + 1;
      if m == 0 {
        MulLeImplies(n, r + 1, q);
        assert n * (r + 1) == n * r + n;
        assert r == q;
      } else {
        MulLeImplies(n, r, q);
        assert r == q + 1;
        assert n * r == n * q + n;
      }
    }
  }

  lemma MulLeImplies(n: int, a: int, b: int)
    requires n > 0
    ensures a <= b ==> n * a <= n * b
  {
    assert n * b - n * a == n * (b - a);
  }

  /** Every segment has its `SegmentLength` and only charset characters. */
  lemma {:induction false} SegmentsShape(charset: string, lengths: seq<int>, shuffle: Shuffler, parts: seq<string>)
    requires IsShuffle(shuffle)
    requires Segments(charset, lengths, shuffle) == Success(parts)
    ensures |parts| == |lengths|
    ensures |lengths| > 0 ==> |charset| > 0
    ensures forall k :: 0 <= k < |parts| ==>
      |charset| > 0 && |parts[k]| == SegmentLength(lengths[k], |charset|) && forall c :: c in parts[k] ==> c in charset
  {
    if |lengths| > 0 {
      var init := lengths[..|lengths| - 1];
      var last := lengths[|lengths| - 1];
      var prev := Segments(charset, init, shuffle).value;
      SegmentsShape(charset, init, shuffle, prev);
      SegmentShape(charset, last, shuffle, |lengths| - 1);
      assert parts == prev + [Segment(charset, last, shuffle, |lengths| - 1).value];
      assert forall k :: 0 <= k < |init| ==> lengths[k] == init[k];
    }
  }

  /**
   * Generation throws exactly when there is a segment to build and either the
   * charset is empty or some requested length is at or below minus the
   * charset size.
   */
  lemma {:induction false} GenerationSucceedsIff(charset: string, lengths: seq<int>, separator: string, shuffle: Shuffler)
    ensures GeneratePassword(charset, lengths, separator, shuffle).Success? <==>
      |lengths| == 0 || (|charset| > 0 && forall k :: 0 <= k < |lengths| ==> lengths[k] > -|charset|)
  {
    SegmentsSucceedIff(charset, lengths, shuffle);
  }

  lemma {:induction false} SegmentsSucceedIff(charset: string, lengths: seq<int>, shuffle: Shuffler)
    ensures Segments(charset, lengths, shuffle).Success? <==>
      |lengths| == 0 || (|charset| > 0 && forall k :: 0 <= k < |lengths| ==> lengths[k] > -|charset|)
  {
    if |lengths| > 0 {
      var init := lengths[..|lengths| - 1];
      SegmentsSucceedIff(charset, init, shuffle);
      assert forall k :: 0 <= k < |init| ==> lengths[k] == init[k];
    }
  }

  /** Every character of `implode` is from the separator or from one of the parts. */
  lemma {:induction false} JoinChars(separator: string, parts: seq<string>, c: char)
    requires c in Join(separator, parts)
    ensures c in separator || exists k :: 0 <= k < |parts| && c in parts[k]
  {
    if |parts| > 1 {
      var init := parts[..|parts| - 1];
      if c in Join(separator, init) {
        JoinChars(separator, init, c);
        if c !in separator {
          var k :| 0 <= k < |init| && c in init[k];
          assert parts[k] == init[k];
        }
      } else if c !in separator {
        assert c in parts[|parts| - 1];
      }
    }
  }

  /** Every character of a generated password comes from the charset or from the separator. */
  lemma PasswordChars(charset: string, lengths: seq<int>, separator: string, shuffle: Shuffler, password: string, c: char)
    requires IsShuffle(shuffle)
    requires GeneratePassword(charset, lengths, separator, shuffle) == Success(password)
    requires c in password
    ensures c in charset || c in separator
  {
    var parts := Segments(charset, lengths, shuffle).value;
    SegmentsShape(charset, lengths, shuffle, parts);
    JoinChars(separator, parts, c);
  }

  /**
   * The shape of a generated password: with a one-character separator that
   * the charset does not contain, it splits into one segment per requested
   * length, each of `SegmentLength` charset characters.
   */
  lemma PasswordShape(charset: string, lengths: seq<int>, sep: char, shuffle: Shuffler, password: string)
    requires IsShuffle(shuffle)
    requires sep !in charset
    requires |lengths| >= 1
    requires GeneratePassword(charset, lengths, [sep], shuffle) == Success(password)
    ensures |charset| > 0
    ensures |Explode(sep, password)| == |lengths|
    ensures forall k :: 0 <= k < |lengths| ==>
      |Explode(sep, password)[k]| == SegmentLength(lengths[k], |charset|) &&
      forall c :: c in Explode(sep, password)[k] ==> c in charset
  {
    var parts := Segments(charset, lengths, shuffle).value;
    SegmentsShape(charset, lengths, shuffle, parts);
    ExplodeJoin(sep, parts);
  }

  /** No character of the string is a lower-case ASCII letter. */
  predicate UpperStable(s: string) {
    forall i :: 0 <= i < |s| ==> UpperChar(s[i]) == s[i]
  }

  lemma UpperStableUpper(s: string)
    requires UpperStable(s)
    ensures Upper(s) == s
  {
  }

  /** The built-in charsets used when case does not matter hold no lower-case letter. */
  lemma BuiltInCharsetsUpperStable(format: string, customize: Option<string>)
    requires format == "string" || format == "numeric" || format == "numeric-no-zero"
    ensures UpperStable(Charset(format, customize, false))
  {
    if format == "string" {
      assert UpperStable(STRING_INSENSITIVE_CHARSET);
    } else if format == "numeric" {
      assert UpperStable(NUMERIC_CHARSET);
    } else {
      assert UpperStable(NUMERIC_NO_ZERO_CHARSET);
    }
  }

  /** Joining upper-case-stable parts with an upper-case-stable separator is upper-case-stable. */
  lemma {:induction false} JoinUpperStable(separator: string, parts: seq<string>)
    requires UpperStable(separator)
    requires forall k :: 0 <= k < |parts| ==> UpperStable(parts[k])
    ensures UpperStable(Join(separator, parts))
  {
    if |parts| > 1 {
      JoinUpperStable(separator, parts[..|parts| - 1]);
    }
  }

  /** A string made of characters of an upper-case-stable charset is upper-case-stable. */
  lemma CharsFromUpperStable(charset: string, s: string)
    requires UpperStable(charset)
    requires forall c :: c in s ==> c in charset
    ensures UpperStable(s)
  {
    forall i | 0 <= i < |s| ensures UpperChar(s[i]) == s[i] {
      assert s[i] in charset;
      var j :| 0 <= j < |charset| && charset[j] == s[i];
    }
  }

  /**
   * With a built-in format in case-insensitive mode and a separator that has
   * no lower-case letter, `strtoupper` leaves the generated password as it is.
   */
  lemma BuiltInInsensitiveIsUpper(format: string, customize: Option<string>, lengths: seq<int>, separator: string, shuffle: Shuffler, password: string)
    requires IsShuffle(shuffle)
    requires format == "string" || format == "numeric" || format == "numeric-no-zero"
    requires UpperStable(separator)
    requires GeneratePassword(Charset(format, customize, false), lengths, separator, shuffle) == Success(password)
    ensures Upper(password) == password
  {
    var charset := Charset(format, customize, false);
    var parts := Segments(charset, lengths, shuffle).value;
    SegmentsShape(charset, lengths, shuffle, parts);
    BuiltInCharsetsUpperStable(format, customize);
    forall k | 0 <= k < |parts| ensures UpperStable(parts[k]) {
      CharsFromUpperStable(charset, parts[k]);
    }
    JoinUpperStable(separator, parts);
    UpperStableUpper(password);
  }
}
