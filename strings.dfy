/**
 * The PHP string built-ins the OTP class relies on, with PHP 8 semantics:
 * `strtoupper` (ASCII only), `substr`, `str_repeat`, `implode` and, to state
 * what `implode` produced, `explode`.
 */
module PhpStrings {

  function Min(a: int, b: int): int { if a <= b then a else b }
  function Max(a: int, b: int): int { if a <= b then b else a }

  /** `strtoupper` on one byte: only `a`..`z` change. */
  function UpperChar(c: char): (r: char)
    ensures 'a' <= c <= 'z' ==> 'A' <= r <= 'Z' && r as int + 32 == c as int
    ensures !('a' <= c <= 'z') ==> r == c
  {
    if 'a' <= c <= 'z' then (c as int - 32) as char else c
  }

  /** `strtoupper`: the same string, each character upper-cased. */
  function Upper(s: string): (r: string)
    ensures |r| == |s|
    ensures forall i :: 0 <= i < |s| ==> r[i] == UpperChar(s[i])
  {
    if s == [] then [] else [UpperChar(s[0])] + Upper(s[1..])
  }

  /** Two strings that differ at most in the ASCII case of their letters. */
  predicate SameIgnoringCase(p: string, q: string) {
    |p| == |q| && forall i :: 0 <= i < |p| ==> UpperChar(p[i]) == UpperChar(q[i])
  }

  /** `strtoupper` is idempotent: an upper-cased string is its own upper case. */
  lemma UpperIdempotent(s: string)
    ensures Upper(Upper(s)) == Upper(s)
  {
    var u := Upper(s);
    assert Upper(u) == u by {
      forall i | 0 <= i < |u| ensures Upper(u)[i] == u[i] {
        assert UpperChar(UpperChar(s[i])) == UpperChar(s[i]);
      }
    }
  }

  /** Two strings have the same upper case exactly when they differ only in case. */
  lemma UpperEqualIff(p: string, q: string)
    ensures Upper(p) == Upper(q) <==> SameIgnoringCase(p, q)
  {
    if SameIgnoringCase(p, q) {
      assert forall i :: 0 <= i < |p| ==> Upper(p)[i] == Upper(q)[i];
    }
    if Upper(p) == Upper(q) {
      assert forall i :: 0 <= i < |p| ==> UpperChar(p[i]) == Upper(q)[i];
    }
  }

  /**
   * `substr($s, $offset, $length)` for a non-negative offset, as PHP 8 does it:
   * an offset past the end gives "", a negative length drops that many
   * characters from the end, and too large a length stops at the end.
   */
  function Substr(s: string, offset: nat, length: int): (r: string)
    ensures length >= 0 ==> |r| == Min(length, Max(|s| - offset, 0))
    ensures length < 0 ==> |r| == Max(|s| - offset + length, 0)
    ensures forall i :: 0 <= i < |r| ==> offset + i < |s| && r[i] == s[offset + i]
  {
    if offset >= |s| then ""
    else if length >= 0 then s[offset..offset + Min(length, |s| - offset)]
    else if |s| - offset < -length then ""
    else s[offset..|s| + length]
  }

  /** `str_repeat($s, $times)` for a non-negative count. */
  function Repeat(s: string, times: nat): (r: string)
    ensures |r| == |s| * times
    ensures forall c :: c in r ==> c in s
  {
    if times == 0 then "" else Repeat(s, times - 1) + s
  }

  /** `implode($sep, $parts)`: the parts in order with `sep` between neighbours. */
  function Join(sep: string, parts: seq<string>): string
  {
    if |parts| == 0 then ""
    else if |parts| == 1 then parts[0]
    else Join(sep, parts[..|parts| - 1]) + sep + parts[|parts| - 1]
  }

  /** `explode($sep, $s)` for a one-character separator. */
  function Explode(sep: char, s: string): (r: seq<string>)
    ensures |r| >= 1
    ensures forall k :: 0 <= k < |r| ==> sep !in r[k]
  {
    if s == [] then [""]
    else
      var rest := Explode(sep, s[1..]);
      if s[0] == sep then [""] + rest else [[s[0]] + rest[0]] + rest[1..]
  }

  /** A separator-free prefix sticks to the first part of what follows it. */
  lemma {:induction false} ExplodeAppendFree(sep: char, a: string, b: string)
    requires sep !in a
    ensures Explode(sep, a + b) == [a + Explode(sep, b)[0]] + Explode(sep, b)[1..]
  {
    if a == [] {
      var e := Explode(sep, b);
      assert a + b == b && a + e[0] == e[0];
      assert e == [e[0]] + e[1..];
    } else {
      assert (a + b)[1..] == a[1..] + b;
      ExplodeAppendFree(sep, a[1..], b);
      var rest := Explode(sep, a[1..] + b);
      assert rest[0] == a[1..] + Explode(sep, b)[0];
      assert rest[1..] == Explode(sep, b)[1..];
      assert [a[0]] + (a[1..] + Explode(sep, b)[0]) == a + Explode(sep, b)[0];
    }
  }

  /**
   * `explode` undoes `implode` when the separator is one character that no
   * part contains: the joined string splits back into exactly the parts.
   */
  lemma {:induction false} ExplodeJoin(sep: char, parts: seq<string>)
    requires |parts| >= 1
    requires forall k :: 0 <= k < |parts| ==> sep !in parts[k]
    ensures Explode(sep, Join([sep], parts)) == parts
    decreases |parts|
  {
    if |parts| == 1 {
      ExplodeAppendFree(sep, parts[0], "");
      assert parts[0] + "" == parts[0];
    } else {
      var init := parts[..|parts| - 1];
      var last := parts[|parts| - 1];
      assert Join([sep], parts) == Join([sep], init) + [sep] + last;
      ExplodeAfter(sep, Join([sep], init), last);
      ExplodeJoin(sep, init);
      assert init + [last] == parts;
    }
  }

  /** Splitting `x + sep + last` splits `x` and then adds `last` as one more part. */
  lemma {:induction false} ExplodeAfter(sep: char, x: string, last: string)
    requires sep !in last
    ensures Explode(sep, x + [sep] + last) == Explode(sep, x) + [last]
  {
    if x == [] {
      assert x + [sep] + last == [sep] + last;
      assert ([sep] + last)[1..] == last;
      ExplodeAppendFree(sep, last, "");
      assert last + "" == last;
    } else {
      assert (x + [sep] + last)[1..] == x[1..] + [sep] + last;
      ExplodeAfter(sep, x[1..], last);
    }
  }
}
