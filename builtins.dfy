/**
 * The Python values and built-in string operations the news fetcher relies on:
 * None/Some, a call that returns or raises, str() of an int, str.strip(),
 * str.lower() and str.join().
 */
module Builtins {

  datatype Option<T> = None | Some(value: T) {
    /** dict.get(key, default) when the option stands for the key's value */
    function GetOr(default: T): T {
      if Some? then value else default
    }
  }

  /** The exceptions that escape from the modelled entry points. */
  datatype Exception =
    | RuntimeError(message: string)
    | KeyError(key: string)
    | NameError(name: string)
    | UnboundLocalError(name: string)
    | SearchFailure(detail: string)  // whatever the search client raised, propagated as is

  /** What a call to a Python function does: return a string or raise. */
  datatype Outcome = Returns(text: string) | Raises(error: Exception)

  lemma TakeSnoc<T>(s: seq<T>, k: nat)
    requires k < |s|
    ensures s[..k + 1] == s[..k] + [s[k]]
  {
  }

  function Min(a: int, b: int): int {
    if a <= b then a else b
  }

  // ---------------------------------------------------------------------------
  // str(n) for Python ints

  predicate IsDigit(c: char) {
    '0' <= c <= '9'
  }

  function DigitChar(d: nat): (c: char)
    requires d < 10
    ensures IsDigit(c) && c as int - '0' as int == d
  {
    (d + '0' as int) as char
  }

  /** The decimal digits of n, as str(n) writes them: no sign, no leading zero. */
  function NatToStr(n: nat): (s: string)
    ensures |s| >= 1
    ensures forall i :: 0 <= i < |s| ==> IsDigit(s[i])
    ensures s[0] == '0' ==> n == 0 && |s| == 1
    decreases n
  {
    if n < 10 then [DigitChar(n)] else NatToStr(n / 10) + [DigitChar(n % 10)]
  }

  /** The number a string of decimal digits denotes (int(s) on such a string). */
  function DigitsValue(s: string): nat
    requires forall i :: 0 <= i < |s| ==> IsDigit(s[i])
  {
    if s == [] then 0
    else
      assert IsDigit(s[|s| - 1]);
      DigitsValue(s[..|s| - 1]) * 10 + (s[|s| - 1] as int - '0' as int)
  }

  /** int(str(n)) == n: the rendering loses nothing. */
  lemma {:induction false} NatToStrRoundTrip(n: nat)
    ensures DigitsValue(NatToStr(n)) == n
    decreases n
  {
    if n >= 10 {
      var s := NatToStr(n);
      assert s[..|s| - 1] == NatToStr(n / 10);
      NatToStrRoundTrip(n / 10);
    }
  }

  /** Distinct numbers get distinct renderings (so labels and bullet numbers never collide). */
  lemma NatToStrInjective(m: nat, n: nat)
    ensures NatToStr(m) == NatToStr(n) <==> m == n
  {
    if NatToStr(m) == NatToStr(n) {
      NatToStrRoundTrip(m);
      NatToStrRoundTrip(n);
    }
  }

  /** str(i) for any Python int: a minus sign for negatives, then the digits of |i|. */
  function IntToStr(i: int): (s: string)
    ensures |s| >= 1
    ensures s[0] == '-' <==> i < 0
    ensures i >= 0 ==> s == NatToStr(i)
  {
    if i < 0 then "-" + NatToStr(-i) else NatToStr(i)
  }

  lemma IntToStrInjective(i: int, j: int)
    ensures IntToStr(i) == IntToStr(j) <==> i == j
  {
    if IntToStr(i) == IntToStr(j) {
      if i < 0 {
        assert IntToStr(i)[1..] == NatToStr(-i);
        assert IntToStr(j)[1..] == NatToStr(-j);
        NatToStrInjective(-i, -j);
      } else {
        NatToStrInjective(i, j);
      }
    }
  }

  // ---------------------------------------------------------------------------
  // Concatenation and str.join

  /** ''.join(parts), which is also what repeated `+=` onto '' builds */
  function Concat(parts: seq<string>): string {
    if |parts| == 0 then "" else parts[0] + Concat(parts[1..])
  }

  lemma {:induction false} ConcatAppend(xs: seq<string>, ys: seq<string>)
    ensures Concat(xs + ys) == Concat(xs) + Concat(ys)
    decreases |xs|
  {
    if xs == [] {
      assert xs + ys == ys;
    } else {
      assert (xs + ys)[1..] == xs[1..] + ys;
      ConcatAppend(xs[1..], ys);
    }
  }

  /** Appending one part with `+=` extends the text by exactly that part. */
  lemma ConcatSnoc(xs: seq<string>, x: string)
    ensures Concat(xs + [x]) == Concat(xs) + x
  {
    ConcatAppend(xs, [x]);
    assert Concat([x]) == x + Concat([]);
  }

  /** The concatenation is empty exactly when every part is. */
  lemma {:induction false} ConcatEmpty(xs: seq<string>)
    ensures Concat(xs) == "" <==> forall i :: 0 <= i < |xs| ==> xs[i] == ""
    decreases |xs|
  {
    if xs != [] {
      ConcatEmpty(xs[1..]);
      assert forall i :: 1 <= i < |xs| ==> xs[i] == xs[1..][i - 1];
    }
  }

  /** Each part with sep put in front of it. */
  function Prefixed(sep: string, parts: seq<string>): (ps: seq<string>)
    ensures |ps| == |parts|
  {
    seq(|parts|, i requires 0 <= i < |parts| => sep + parts[i])
  }

  lemma PrefixedAppend(sep: string, a: seq<string>, b: seq<string>)
    ensures Prefixed(sep, a + b) == Prefixed(sep, a) + Prefixed(sep, b)
  {
  }

  /** sep.join(parts): '' for no parts, otherwise text that begins with the first part. */
  function Join(sep: string, parts: seq<string>): (r: string)
    ensures |parts| == 0 ==> r == ""
    ensures |parts| > 0 ==> |parts[0]| <= |r| && r[..|parts[0]|] == parts[0]
  {
    if |parts| == 0 then ""
    else if |parts| == 1 then parts[0]
    else parts[0] + sep + Join(sep, parts[1..])
  }

  /** Joining one more part adds exactly one separator and that part. */
  lemma {:induction false} JoinSnoc(sep: string, parts: seq<string>, x: string)
    requires |parts| > 0
    ensures Join(sep, parts + [x]) == Join(sep, parts) + sep + x
    decreases |parts|
  {
    if |parts| == 1 {
      assert (parts + [x])[1..] == [x];
    } else {
      assert (parts + [x])[1..] == parts[1..] + [x];
      JoinSnoc(sep, parts[1..], x);
    }
  }

  /** sep.join([h] + rest) is h followed by sep + p for every later part p, in order. */
  lemma {:induction false} JoinAsConcat(sep: string, h: string, rest: seq<string>)
    ensures Join(sep, [h] + rest) == h + Concat(Prefixed(sep, rest))
    decreases |rest|
  {
    if |rest| == 0 {
      assert [h] + rest == [h];
    } else {
      var init, last := rest[..|rest| - 1], rest[|rest| - 1];
      assert rest == init + [last];
      assert [h] + rest == ([h] + init) + [last];
      JoinSnoc(sep, [h] + init, last);
      JoinAsConcat(sep, h, init);
      assert Prefixed(sep, rest) == Prefixed(sep, init) + [sep + last];
      ConcatSnoc(Prefixed(sep, init), sep + last);
    }
  }

  // ---------------------------------------------------------------------------
  // str.strip() and str.lower()

  /** str.isspace() for one character, by code point. */
  predicate IsSpace(c: char) {
    var n := c as int;
    (0x09 <= n <= 0x0D) || (0x1C <= n <= 0x20) || n == 0x85 || n == 0xA0
    || n == 0x1680 || (0x2000 <= n <= 0x200A) || n == 0x2028 || n == 0x2029
    || n == 0x202F || n == 0x205F || n == 0x3000
  }

  /** How many whitespace characters s begins with. */
  function LeadingSpaces(s: string): (k: nat)
    ensures k <= |s|
    ensures forall i :: 0 <= i < k ==> IsSpace(s[i])
    ensures k < |s| ==> !IsSpace(s[k])
  {
    if |s| > 0 && IsSpace(s[0]) then 1 + LeadingSpaces(s[1..]) else 0
  }

  /** How many whitespace characters s ends with. */
  function TrailingSpaces(s: string): (k: nat)
    ensures k <= |s|
    ensures forall i :: |s| - k <= i < |s| ==> IsSpace(s[i])
    ensures k < |s| ==> !IsSpace(s[|s| - 1 - k])
  {
    if |s| > 0 && IsSpace(s[|s| - 1]) then 1 + TrailingSpaces(s[..|s| - 1]) else 0
  }

  /** s.strip(): never longer than s, and never beginning or ending with whitespace. */
  function Strip(s: string): (r: string)
    ensures |r| <= |s|
    ensures |r| == 0 || (!IsSpace(r[0]) && !IsSpace(r[|r| - 1]))
  {
    var t := s[LeadingSpaces(s)..];
    t[..|t| - TrailingSpaces(t)]
  }

  /** What strip() keeps: the infix of s left after dropping whitespace at both ends. */
  lemma StripSpec(s: string)
    ensures var r := Strip(s);
      && (r == [] || (!IsSpace(r[0]) && !IsSpace(r[|r| - 1])))
      && (r == [] <==> forall i :: 0 <= i < |s| ==> IsSpace(s[i]))
      && exists lo, hi :: 0 <= lo <= hi <= |s| && r == s[lo..hi]
                          && (forall i :: 0 <= i < lo ==> IsSpace(s[i]))
                          && (forall i :: hi <= i < |s| ==> IsSpace(s[i]))
  {
    var lo := LeadingSpaces(s);
    var t := s[lo..];
    var r := Strip(s);
    var hi := lo + |r|;
    assert r == s[lo..hi];
    assert forall i :: hi <= i < |s| ==> s[i] == t[i - lo];
  }

  /**
   * One character of str.lower(). Apart from A-Z, the only character whose
   * lower case is ASCII is the Kelvin sign. Other characters are left as they
   * are here; Python lowers many of them, but never to ASCII, so the model is
   * exact wherever the result is compared with an ASCII word.
   */
  function LowerChar(c: char): char {
    if 'A' <= c <= 'Z' then (c as int + 32) as char
    else if c == '\U{212A}' then 'k'
    else c
  }

  /** s.lower(): same length, and no upper-case ASCII letter is left. */
  function Lower(s: string): (r: string)
    ensures |r| == |s|
    ensures forall i :: 0 <= i < |r| ==> !('A' <= r[i] <= 'Z')
  {
    seq(|s|, i requires 0 <= i < |s| => LowerChar(s[i]))
  }

  /** Lowering is idempotent, so a lowered word compares the same however often it was lowered. */
  lemma LowerIdempotent(s: string)
    ensures Lower(Lower(s)) == Lower(s)
  {
    forall i | 0 <= i < |s|
      ensures Lower(Lower(s))[i] == Lower(s)[i]
    {
      assert Lower(s)[i] == LowerChar(s[i]);
    }
  }
}
