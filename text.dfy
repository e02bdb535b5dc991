/**
 * The string operations the views, forms and filters rely on: Python's
 * str.strip(), str.lower(), the `in` substring test, str.endswith(),
 * int() on a string, Decimal() on a plain amount string, and the decimal
 * rendering of integers. Characters outside ASCII get no case mapping and
 * no whitespace class here.
 */
module Text {
  import opened Wrappers

  predicate IsDigit(c: char) { '0' <= c <= '9' }

  predicate AllDigits(s: string) { forall i :: 0 <= i < |s| ==> IsDigit(s[i]) }

  /** ASCII whitespace: space, \t, \n, \v, \f, \r. */
  predicate IsSpace(c: char) { c == ' ' || (9 <= c as int <= 13) }

  function TrimLeft(s: string): (r: string)
    ensures |r| <= |s| && r == s[|s| - |r|..]
    ensures r == [] || !IsSpace(r[0])
    ensures forall i :: 0 <= i < |s| - |r| ==> IsSpace(s[i])
  {
    if |s| > 0 && IsSpace(s[0]) then TrimLeft(s[1..]) else s
  }

  function TrimRight(s: string): (r: string)
    ensures |r| <= |s| && r == s[..|r|]
    ensures r == [] || !IsSpace(r[|r| - 1])
    ensures forall i :: |r| <= i < |s| ==> IsSpace(s[i])
  {
    if |s| > 0 && IsSpace(s[|s| - 1]) then TrimRight(s[..|s| - 1]) else s
  }

  /** Python's str.strip() with no argument. */
  function Strip(s: string): (r: string)
    ensures |r| <= |s|
    ensures r == [] || (!IsSpace(r[0]) && !IsSpace(r[|r| - 1]))
  {
    TrimRight(TrimLeft(s))
  }

  lemma StripUnchanged(s: string)
    requires s == [] || (!IsSpace(s[0]) && !IsSpace(s[|s| - 1]))
    ensures Strip(s) == s
  {
  }

  /** Python's str.strip(ch) for one character `ch`. */
  function StripChar(s: string, ch: char): (r: string)
    ensures |r| <= |s|
    ensures r == [] || (r[0] != ch && r[|r| - 1] != ch)
    ensures forall i :: 0 <= i < |r| ==> r[i] in s
    decreases |s|
  {
    if |s| > 0 && s[0] == ch then StripChar(s[1..], ch)
    else if |s| > 0 && s[|s| - 1] == ch then StripChar(s[..|s| - 1], ch)
    else s
  }

  function LowerChar(c: char): char {
    if 'A' <= c <= 'Z' then (c as int + 32) as char else c
  }

  /** Python's str.lower() on ASCII letters. */
  function Lower(s: string): (r: string)
    ensures |r| == |s|
    ensures forall i :: 0 <= i < |s| ==> r[i] == LowerChar(s[i])
  {
    seq(|s|, i requires 0 <= i < |s| => LowerChar(s[i]))
  }

  predicate IsPrefix(p: string, s: string) { |p| <= |s| && s[..|p|] == p }

  /** Python's `needle in hay` for strings. */
  predicate Contains(hay: string, needle: string)
    decreases |hay|
  {
    IsPrefix(needle, hay) || (|hay| > 0 && Contains(hay[1..], needle))
  }

  /** `needle` occurs in `hay` starting at index k. */
  predicate OccursAt(hay: string, needle: string, k: int) {
    0 <= k && k + |needle| <= |hay| && hay[k..k + |needle|] == needle
  }

  /** Contains agrees with the positional reading of the substring test. */
  lemma {:induction false} ContainsAt(hay: string, needle: string)
    ensures Contains(hay, needle) <==> exists k :: OccursAt(hay, needle, k)
    decreases |hay|
  {
    if IsPrefix(needle, hay) {
      assert OccursAt(hay, needle, 0);
    } else if |hay| > 0 {
      ContainsAt(hay[1..], needle);
      if Contains(hay[1..], needle) {
        var k :| OccursAt(hay[1..], needle, k);
        assert hay[k + 1..k + 1 + |needle|] == hay[1..][k..k + |needle|];
        assert OccursAt(hay, needle, k + 1);
      }
      if exists k :: OccursAt(hay, needle, k) {
        var k :| OccursAt(hay, needle, k);
        assert k != 0;
        assert hay[1..][k - 1..k - 1 + |needle|] == hay[k..k + |needle|];
        assert OccursAt(hay[1..], needle, k - 1);
      }
    } else {
      assert |needle| > 0;
      forall k ensures !OccursAt(hay, needle, k) { }
    }
  }

  /** Python's str.endswith(suffix). */
  predicate EndsWith(s: string, suffix: string) {
    |suffix| <= |s| && s[|s| - |suffix|..] == suffix
  }

  /** The string with every occurrence of `c` deleted (str.replace(c, '')). */
  function RemoveAll(s: string, c: char): (r: string)
    ensures |r| <= |s|
  {
    if s == [] then [] else (if s[0] == c then [] else [s[0]]) + RemoveAll(s[1..], c)
  }

  lemma {:induction false} RemoveAllConcat(a: string, b: string, c: char)
    ensures RemoveAll(a + b, c) == RemoveAll(a, c) + RemoveAll(b, c)
  {
    if a == [] {
      assert a + b == b;
    } else {
      var h := if a[0] == c then [] else [a[0]];
      assert (a + b)[0] == a[0];
      assert (a + b)[1..] == a[1..] + b;
      assert RemoveAll(a + b, c) == h + RemoveAll(a[1..] + b, c);
      RemoveAllConcat(a[1..], b, c);
      assert RemoveAll(a, c) == h + RemoveAll(a[1..], c);
    }
  }

  /** No occurrence of `c` survives. */
  lemma {:induction false} RemoveAllRemoves(s: string, c: char)
    ensures c !in RemoveAll(s, c)
  {
    if s != [] {
      RemoveAllRemoves(s[1..], c);
    }
  }

  lemma {:induction false} RemoveAllAbsent(s: string, c: char)
    requires c !in s
    ensures RemoveAll(s, c) == s
  {
    if s != [] {
      RemoveAllAbsent(s[1..], c);
    }
  }

  /** The value of a string of decimal digits ("" is 0). */
  function DigitsValue(s: string): (v: nat)
    requires AllDigits(s)
  {
    if s == [] then 0 else DigitsValue(s[..|s| - 1]) * 10 + (s[|s| - 1] as int - '0' as int)
  }

  function DigitChar(d: nat): (c: char)
    requires d < 10
    ensures IsDigit(c) && c as int - '0' as int == d
  {
    ('0' as int + d) as char
  }

  /** The decimal representation of a natural number, without leading zeros. */
  function NatToString(n: nat): (r: string)
    ensures |r| >= 1 && AllDigits(r)
    ensures r[0] != '0' || n == 0
    ensures DigitsValue(r) == n
  {
    if n < 10 then [DigitChar(n)]
    else
      var front := NatToString(n / 10);
      assert (front + [DigitChar(n % 10)])[..|front|] == front;
      front + [DigitChar(n % 10)]
  }

  /** Python's str(n) for an int. */
  function IntToString(n: int): (r: string)
    ensures |r| >= 1
    ensures n < 0 ==> r[0] == '-' && r[1..] == NatToString(-n)
    ensures n >= 0 ==> r == NatToString(n)
  {
    if n < 0 then "-" + NatToString(-n) else NatToString(n)
  }

  /** Digits separated by single underscores, the digit grammar of int(). */
  predicate IsDigitRun(s: string) {
    && |s| > 0 && IsDigit(s[0]) && IsDigit(s[|s| - 1])
    && (forall i :: 0 <= i < |s| ==> IsDigit(s[i]) || s[i] == '_')
    && (forall i :: 0 <= i < |s| - 1 ==> s[i] != '_' || s[i + 1] != '_')
  }

  lemma {:induction false} DigitsAfterRemovingUnderscores(s: string)
    requires forall i :: 0 <= i < |s| ==> IsDigit(s[i]) || s[i] == '_'
    ensures AllDigits(RemoveAll(s, '_'))
  {
    if s != [] {
      DigitsAfterRemovingUnderscores(s[1..]);
      var first: string := if s[0] == '_' then [] else [s[0]];
      assert AllDigits(first);
      var r := first + RemoveAll(s[1..], '_');
      forall i | 0 <= i < |r| ensures IsDigit(r[i]) {
        if i >= |first| {
          assert r[i] == RemoveAll(s[1..], '_')[i - |first|];
        }
      }
    }
  }

  function RunValue(s: string): nat
    requires IsDigitRun(s)
  {
    DigitsAfterRemovingUnderscores(s);
    DigitsValue(RemoveAll(s, '_'))
  }

  /**
   * Python's int(s) on a string: surrounding whitespace, an optional sign,
   * then digits with single underscores between them; None stands for the
   * ValueError.
   */
  function ParseInt(s: string): (r: Option<int>)
  {
    var t := Strip(s);
    if |t| > 0 && (t[0] == '+' || t[0] == '-') then
      if IsDigitRun(t[1..]) then
        Some(if t[0] == '-' then -(RunValue(t[1..]) as int) else RunValue(t[1..]))
      else None
    else if IsDigitRun(t) then Some(RunValue(t))
    else None
  }

  /** int(str(n)) == n: parsing undoes the decimal rendering. */
  lemma ParseIntRoundTrip(n: int)
    ensures ParseInt(IntToString(n)) == Some(n)
  {
    var s := IntToString(n);
    if n < 0 {
      assert s == "-" + NatToString(-n);
      ParseIntOfNegated(s, -n);
    } else {
      ParseIntOfDigits(s, n);
    }
  }

  lemma ParseIntOfDigits(s: string, m: nat)
    requires s == NatToString(m)
    ensures ParseInt(s) == Some(m)
  {
    StripUnchanged(s);
    DigitsAreRun(s);
    assert !(s[0] == '+' || s[0] == '-');
  }

  lemma ParseIntOfNegated(s: string, m: nat)
    requires s == "-" + NatToString(m)
    ensures ParseInt(s) == Some(-(m as int))
  {
    var digits := NatToString(m);
    StripUnchanged(s);
    var t := Strip(s);
    assert t[1..] == digits;
    DigitsAreRun(digits);
    assert t[0] == '-' && IsDigitRun(t[1..]) && RunValue(t[1..]) == m;
  }

  /** Plain digits are a digit run worth their value. */
  lemma DigitsAreRun(digits: string)
    requires AllDigits(digits) && |digits| >= 1
    ensures IsDigitRun(digits) && RunValue(digits) == DigitsValue(digits)
  {
    assert IsDigitRun(digits);
    NoCharInDigits(digits, '_');
    RemoveAllAbsent(digits, '_');
  }

  lemma ParseIntRejectsBlank(s: string)
    requires forall i :: 0 <= i < |s| ==> IsSpace(s[i])
    ensures ParseInt(s) == None
  {
    assert TrimLeft(s) == [];
  }

  /** The index of the first occurrence of `c`, or |s| if there is none. */
  function IndexOf(s: string, c: char): (k: nat)
    ensures k <= |s|
    ensures forall i :: 0 <= i < k ==> s[i] != c
    ensures k < |s| ==> s[k] == c
  {
    if s == [] then 0
    else if s[0] == c then 0
    else IndexOf(s[1..], c) + 1
  }

  /** The first `c` after a stretch without one is found where that stretch ends. */
  lemma {:induction false} IndexOfAfter(front: string, rest: string, c: char)
    requires forall i :: 0 <= i < |front| ==> front[i] != c
    requires |rest| > 0 && rest[0] == c
    ensures IndexOf(front + rest, c) == |front|
  {
    if front != [] {
      assert (front + rest)[1..] == front[1..] + rest;
      IndexOfAfter(front[1..], rest, c);
    }
  }

  function FractionCents(frac: string): nat
    requires AllDigits(frac) && |frac| <= 2
  {
    if |frac| == 0 then 0
    else if |frac| == 1 then DigitsValue(frac) * 10
    else DigitsValue(frac)
  }

  /** An unsigned amount "123", "123.4", "123.45", ".5" or "12." as cents. */
  function UnsignedCents(body: string): (r: Option<nat>)
  {
    var dot := IndexOf(body, '.');
    var whole := body[..dot];
    var frac := if dot < |body| then body[dot + 1..] else "";
    if AllDigits(whole) && AllDigits(frac) && |frac| <= 2 && |whole| + |frac| > 0 then
      Some(DigitsValue(whole) * 100 + FractionCents(frac))
    else None
  }

  /**
   * Decimal(s) for a plain amount ("1200", "-3.5", " 12.05 "), as integer
   * cents; None stands for InvalidOperation, and also for the forms this
   * model leaves out (exponents, NaN, Infinity, underscores, more than two
   * fractional digits).
   */
  function ParseCents(s: string): (r: Option<int>)
  {
    var t := Strip(s);
    if |t| > 0 && t[0] == '-' then
      match UnsignedCents(t[1..])
      case Some(c) => Some(-(c as int))
      case None => None
    else if |t| > 0 && t[0] == '+' then
      match UnsignedCents(t[1..])
      case Some(c) => Some(c)
      case None => None
    else
      match UnsignedCents(t)
      case Some(c) => Some(c)
      case None => None
  }

  /** An unsigned amount that starts and ends with a digit reads as itself. */
  lemma ParseUnsignedCents(body: string, c: nat)
    requires |body| > 0 && IsDigit(body[0]) && IsDigit(body[|body| - 1])
    requires UnsignedCents(body) == Some(c)
    ensures ParseCents(body) == Some(c)
  {
    StripUnchanged(body);
  }

  /** The same after a minus sign reads as the negated amount. */
  lemma ParseNegatedCents(body: string, c: nat)
    requires |body| > 0 && IsDigit(body[0]) && IsDigit(body[|body| - 1])
    requires UnsignedCents(body) == Some(c)
    ensures ParseCents("-" + body) == Some(-(c as int))
  {
    var plain := "-" + body;
    assert plain[|plain| - 1] == body[|body| - 1];
    StripUnchanged(plain);
    assert plain[0] == '-' && plain[1..] == body;
  }

  lemma NoCharInDigits(s: string, c: char)
    requires AllDigits(s) && !IsDigit(c)
    ensures c !in s
  {
    forall i | 0 <= i < |s| ensures s[i] != c {
      assert IsDigit(s[i]);
    }
  }

  /** Decimal(str(n)) for an integer n is n whole units. */
  lemma ParseCentsOfInteger(n: int)
    ensures ParseCents(IntToString(n)) == Some(n * 100)
  {
    var s := IntToString(n);
    if n < 0 {
      assert s == "-" + NatToString(-n);
      ParseCentsOfNegated(s, -n);
    } else {
      ParseCentsOfDigits(s, n);
    }
  }

  /** Digits without a point read as whole units. */
  lemma UnsignedCentsOfDigits(digits: string)
    requires AllDigits(digits) && |digits| >= 1
    ensures UnsignedCents(digits) == Some(DigitsValue(digits) * 100)
  {
    NoCharInDigits(digits, '.');
    assert IndexOf(digits, '.') == |digits|;
    assert digits[..|digits|] == digits;
  }

  lemma ParseCentsOfDigits(s: string, m: nat)
    requires s == NatToString(m)
    ensures ParseCents(s) == Some(m * 100)
  {
    StripUnchanged(s);
    UnsignedCentsOfDigits(s);
  }

  lemma ParseCentsOfNegated(s: string, m: nat)
    requires s == "-" + NatToString(m)
    ensures ParseCents(s) == Some(-(m as int) * 100)
  {
    var digits := NatToString(m);
    StripUnchanged(s);
    assert s[1..] == digits;
    UnsignedCentsOfDigits(digits);
  }

  /** The strings joined with `sep` between them (Python's sep.join). */
  function Join(parts: seq<string>, sep: string): (r: string)
    ensures parts == [] ==> r == ""
    ensures |parts| == 1 ==> r == parts[0]
  {
    if parts == [] then ""
    else if |parts| == 1 then parts[0]
    else parts[0] + sep + Join(parts[1..], sep)
  }

  /** Every part occurs in the joined text. */
  lemma {:induction false} JoinListsEach(parts: seq<string>, sep: string, i: nat)
    requires i < |parts|
    ensures Contains(Join(parts, sep), parts[i])
  {
    var j := Join(parts, sep);
    var k := JoinOffsetExists(parts, sep, i);
    ContainsAt(j, parts[i]);
  }

  /** Where part i starts in the joined text. */
  lemma {:induction false} JoinOffsetExists(parts: seq<string>, sep: string, i: nat) returns (k: nat)
    requires i < |parts|
    ensures OccursAt(Join(parts, sep), parts[i], k)
    decreases |parts|
  {
    if |parts| == 1 {
      k := 0;
      assert Join(parts, sep)[0..|parts[0]|] == parts[0];
    } else {
      var rest := Join(parts[1..], sep);
      var front := parts[0] + sep;
      assert Join(parts, sep) == front + rest;
      if i == 0 {
        k := 0;
        assert (front + rest)[0..|parts[0]|] == parts[0];
      } else {
        var k' := JoinOffsetExists(parts[1..], sep, i - 1);
        k := |front| + k';
        assert (front + rest)[k..k + |parts[i]|] == rest[k'..k' + |parts[i]|];
      }
    }
  }

  /** Text found in `back` is found in `front + back`. */
  lemma {:induction false} ContainsInSuffix(front: string, back: string, needle: string)
    requires Contains(back, needle)
    ensures Contains(front + back, needle)
    decreases |front|
  {
    if front != [] {
      ContainsInSuffix(front[1..], back, needle);
      assert (front + back)[1..] == front[1..] + back;
    } else {
      assert front + back == back;
    }
  }
}
