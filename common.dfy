/**
 * Small shared vocabulary: an optional value, counting in sequences, and
 * the decimal string-to-integer conversion the crash reporter relies on
 * (Qt's QString::toInt in base 10).
 */
module Common {

  datatype Option<T> = None | Some(value: T)

  /** The range of a 32-bit signed C++ int. */
  const INT_MIN: int := -0x8000_0000
  const INT_MAX: int := 0x7fff_ffff

  predicate IsDigit(c: char) {
    '0' <= c <= '9'
  }

  predicate AllDigits(s: string) {
    forall i :: 0 <= i < |s| ==> IsDigit(s[i])
  }

  function DigitValue(c: char): (d: nat)
    requires IsDigit(c)
    ensures d < 10
  {
    (c as int) - ('0' as int)
  }

  function DigitChar(d: nat): (c: char)
    requires d < 10
    ensures IsDigit(c) && DigitValue(c) == d
  {
    (('0' as int) + d) as char
  }

  /** The value of a string of decimal digits, most significant first. */
  function DigitsValue(s: string): nat
    requires AllDigits(s)
  {
    if s == [] then 0 else DigitsValue(s[..|s| - 1]) * 10 + DigitValue(s[|s| - 1])
  }

  /** The shortest decimal rendering of a natural number. */
  function Decimal(n: nat): (s: string)
    ensures |s| > 0 && AllDigits(s)
  {
    if n < 10 then [DigitChar(n)] else Decimal(n / 10) + [DigitChar(n % 10)]
  }

  /**
   * The characters QChar::isSpace() accepts below U+0100: the ASCII
   * blanks and line breaks, NEL and the no-break space.
   */
  predicate IsSpace(c: char) {
    c == ' ' || ('\t' <= c <= '\r') || (c as int) == 0x85 || (c as int) == 0xA0
  }

  predicate AllSpaces(s: string) {
    forall i :: 0 <= i < |s| ==> IsSpace(s[i])
  }

  /** `s` without its leading white space. */
  function StripLeading(s: string): string
    decreases |s|
  {
    if s != [] && IsSpace(s[0]) then StripLeading(s[1..]) else s
  }

  /** `s` without its trailing white space. */
  function StripTrailing(s: string): string
    decreases |s|
  {
    if s != [] && IsSpace(s[|s| - 1]) then StripTrailing(s[..|s| - 1]) else s
  }

  /** `s` without white space at either end, as toInt reads it. */
  function Trim(s: string): string {
    StripTrailing(StripLeading(s))
  }

  /** The conversion proper, on text without surrounding white space. */
  function ParseInt(t: string): (r: int)
    ensures INT_MIN <= r <= INT_MAX
    ensures r != 0 ==> |t| > 0 && (IsDigit(t[0]) || t[0] == '-' || t[0] == '+')
  {
    if |t| > 1 && (t[0] == '-' || t[0] == '+') && AllDigits(t[1..]) then
      var v: int := if t[0] == '-' then 0 - DigitsValue(t[1..]) as int else DigitsValue(t[1..]) as int;
      if INT_MIN <= v <= INT_MAX then v else 0
    else if |t| > 0 && AllDigits(t) && DigitsValue(t) <= INT_MAX then
      DigitsValue(t)
    else
      0
  }

  /**
   * QString::toInt() in base 10: white space around the number is skipped;
   * what remains must be an optional sign followed by at least one digit,
   * whose value fits a 32-bit int; anything else converts to 0 (the
   * "conversion failed" result).
   */
  function ToInt(s: string): (r: int)
    ensures INT_MIN <= r <= INT_MAX
    ensures r != 0 ==> var t := Trim(s);
      |t| > 0 && (IsDigit(t[0]) || t[0] == '-' || t[0] == '+')
  {
    ParseInt(Trim(s))
  }

  lemma {:induction false} StripLeadingSpaces(pre: string, s: string)
    requires AllSpaces(pre)
    ensures StripLeading(pre + s) == StripLeading(s)
    decreases |pre|
  {
    if pre == [] {
      assert pre + s == s;
    } else {
      assert (pre + s)[0] == pre[0] && (pre + s)[1..] == pre[1..] + s;
      assert AllSpaces(pre[1..]) by { forall i | 0 <= i < |pre[1..]| ensures IsSpace(pre[1..][i]) { assert pre[1..][i] == pre[i + 1]; } }
      StripLeadingSpaces(pre[1..], s);
    }
  }

  lemma {:induction false} StripTrailingSpaces(s: string, post: string)
    requires AllSpaces(post)
    ensures StripTrailing(s + post) == StripTrailing(s)
    decreases |post|
  {
    if post == [] {
      assert s + post == s;
    } else {
      var init := post[..|post| - 1];
      assert (s + post)[|s + post| - 1] == post[|post| - 1];
      assert (s + post)[..|s + post| - 1] == s + init;
      assert AllSpaces(init) by { forall i | 0 <= i < |init| ensures IsSpace(init[i]) { assert init[i] == post[i]; } }
      StripTrailingSpaces(s, init);
    }
  }

  /** Trailing blanks survive the leading strip unless nothing else is left. */
  lemma {:induction false} StripLeadingKeepsSuffix(s: string, post: string)
    requires AllSpaces(post)
    ensures StripLeading(s + post) == if StripLeading(s) == [] then [] else StripLeading(s) + post
    decreases |s|
  {
    if s == [] {
      StripLeadingSpaces(post, []);
      assert s + post == post + [] == post;
    } else {
      assert (s + post)[0] == s[0];
      if IsSpace(s[0]) {
        assert (s + post)[1..] == s[1..] + post;
        StripLeadingKeepsSuffix(s[1..], post);
      }
    }
  }

  /** toInt gives the same answer whatever white space surrounds the text. */
  lemma ToIntIgnoresSpaces(pre: string, s: string, post: string)
    requires AllSpaces(pre) && AllSpaces(post)
    ensures ToInt(pre + s + post) == ToInt(s)
  {
    assert pre + s + post == pre + (s + post);
    StripLeadingSpaces(pre, s + post);
    StripLeadingKeepsSuffix(s, post);
    if StripLeading(s) != [] {
      StripTrailingSpaces(StripLeading(s), post);
    }
  }

  lemma {:induction false} DecimalValue(n: nat)
    ensures DigitsValue(Decimal(n)) == n
  {
    var s := Decimal(n);
    if n >= 10 {
      DecimalValue(n / 10);
      assert s[..|s| - 1] == Decimal(n / 10);
    }
  }

  /** toInt reads back every int it could have printed. */
  lemma DecimalRoundTrip(n: int)
    requires INT_MIN <= n <= INT_MAX
    ensures n >= 0 ==> ToInt(Decimal(n)) == n
    ensures n < 0 ==> ToInt("-" + Decimal(-n)) == n
  {
    if n >= 0 {
      DecimalValue(n);
      var d := Decimal(n);
      assert !IsSpace(d[0]) && !IsSpace(d[|d| - 1]);
      assert Trim(d) == d;
    } else {
      var s := "-" + Decimal(-n);
      assert s[1..] == Decimal(-n);
      DecimalValue(-n);
      assert !IsSpace(s[0]) && !IsSpace(s[|s| - 1]);
      assert Trim(s) == s;
    }
  }

  lemma ConcatAssociative<T>(a: seq<T>, b: seq<T>, c: seq<T>)
    ensures a + (b + c) == (a + b) + c
  {
  }

  /** Number of elements of `s` that satisfy `p`. */
  function Count<T>(s: seq<T>, p: T -> bool): (n: nat)
    ensures n <= |s|
  {
    if s == [] then 0 else (if p(s[0]) then 1 else 0) + Count(s[1..], p)
  }

  lemma CountSingleton<T>(e: T, p: T -> bool)
    ensures Count([e], p) == if p(e) then 1 else 0
  {
    assert [e][1..] == [];
  }

  lemma {:induction false} CountAppend<T>(a: seq<T>, b: seq<T>, p: T -> bool)
    ensures Count(a + b, p) == Count(a, p) + Count(b, p)
  {
    if a == [] {
      assert a + b == b;
    } else {
      assert (a + b)[1..] == a[1..] + b;
      CountAppend(a[1..], b, p);
    }
  }
}
