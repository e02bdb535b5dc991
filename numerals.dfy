/**
 * Python's thousands-separated renderings of exact numbers: "{:,}" on an
 * int and "{:,.2f}" on a two-place Decimal amount (here integer cents).
 */
module Numerals {
  import opened Wrappers
  import opened Text

  /** A digit string with a comma before every group of three digits counted from the right. */
  function Group(digits: string): (r: string)
    requires AllDigits(digits)
    ensures forall i :: 0 <= i < |r| ==> IsDigit(r[i]) || r[i] == ','
    decreases |digits|
  {
    if |digits| <= 3 then digits
    else Group(digits[..|digits| - 3]) + "," + digits[|digits| - 3..]
  }

  /** A comma joining two pieces disappears when the commas are deleted. */
  lemma RemoveCommaJoin(front: string, tail: string)
    requires ',' !in tail
    ensures RemoveAll(front + "," + tail, ',') == RemoveAll(front, ',') + tail
  {
    var rest := "," + tail;
    assert front + "," + tail == front + rest;
    RemoveAllConcat(front, rest, ',');
    assert rest[1..] == tail;
    assert RemoveAll(rest, ',') == RemoveAll(tail, ',');
    RemoveAllAbsent(tail, ',');
  }

  /** Deleting the commas from a grouped string gives the digits back. */
  lemma {:induction false} GroupRemoveCommas(digits: string)
    requires AllDigits(digits)
    ensures RemoveAll(Group(digits), ',') == digits
    decreases |digits|
  {
    if |digits| <= 3 {
      NoCharInDigits(digits, ',');
      RemoveAllAbsent(digits, ',');
    } else {
      var head := digits[..|digits| - 3];
      var tail := digits[|digits| - 3..];
      GroupRemoveCommas(head);
      NoCharInDigits(tail, ',');
      RemoveCommaJoin(Group(head), tail);
      assert head + tail == digits;
    }
  }

  /** Groups of digits separated by commas: the first of one to three digits, every later one of exactly three. */
  predicate WellGrouped(r: string)
    decreases |r|
  {
    if |r| <= 3 then 1 <= |r| && AllDigits(r)
    else |r| >= 5 && r[|r| - 4] == ',' && AllDigits(r[|r| - 3..]) && WellGrouped(r[..|r| - 4])
  }

  lemma {:induction false} GroupWellGrouped(digits: string)
    requires AllDigits(digits) && |digits| >= 1
    ensures WellGrouped(Group(digits))
    decreases |digits|
  {
    if |digits| > 3 {
      var head := digits[..|digits| - 3];
      var tail := digits[|digits| - 3..];
      GroupWellGrouped(head);
      WellGroupedJoin(Group(head), tail);
    }
  }

  /** Appending a comma and three digits to well-grouped digits keeps them well grouped. */
  lemma WellGroupedJoin(g: string, tail: string)
    requires WellGrouped(g) && |tail| == 3 && AllDigits(tail)
    ensures WellGrouped(g + "," + tail)
  {
    var r := g + "," + tail;
    assert r[..|r| - 4] == g;
    assert r[|r| - 3..] == tail;
  }

  /** "{:,}".format(n) for an int n. */
  function WithCommas(n: int): (r: string)
    ensures RemoveAll(r, ',') == IntToString(n)
  {
    var digits := NatToString(if n < 0 then -n else n);
    GroupRemoveCommas(digits);
    if n < 0 then
      RemoveAllConcat("-", Group(digits), ',');
      assert RemoveAll("-", ',') == "-";
      "-" + Group(digits)
    else Group(digits)
  }

  /** Deleting the commas and parsing gives the number back. */
  lemma WithCommasParses(n: int)
    ensures ParseInt(RemoveAll(WithCommas(n), ',')) == Some(n)
  {
    ParseIntRoundTrip(n);
  }

  /** The digits of WithCommas(n) (after an optional minus sign) are well grouped. */
  lemma WithCommasShape(n: int)
    ensures n >= 0 ==> WellGrouped(WithCommas(n))
    ensures n < 0 ==> WithCommas(n)[0] == '-' && WellGrouped(WithCommas(n)[1..])
  {
    var digits := NatToString(if n < 0 then -n else n);
    GroupWellGrouped(digits);
    if n < 0 {
      assert WithCommas(n)[1..] == Group(digits);
    }
  }

  function TwoDigits(c: nat): (r: string)
    requires c < 100
    ensures |r| == 2 && AllDigits(r) && DigitsValue(r) == c
  {
    var r := [DigitChar(c / 10), DigitChar(c % 10)];
    assert r[..1] == [DigitChar(c / 10)] && r[..1][..0] == [];
    assert DigitsValue(r[..1]) == c / 10;
    r
  }

  /** The unsigned part of "{:,.2f}": grouped whole units, a point, two digits. */
  function UnsignedWithCommas(a: nat): (r: string)
    ensures |r| >= 4 && IsDigit(r[0]) && IsDigit(r[|r| - 1])
  {
    var g := Group(NatToString(a / 100));
    var frac := TwoDigits(a % 100);
    GroupStartsWithDigit(NatToString(a / 100));
    g + "." + frac
  }

  lemma {:induction false} GroupStartsWithDigit(digits: string)
    requires AllDigits(digits) && |digits| >= 1
    ensures |Group(digits)| >= 1 && Group(digits)[0] == digits[0]
    decreases |digits|
  {
    if |digits| > 3 {
      GroupStartsWithDigit(digits[..|digits| - 3]);
    }
  }

  /** "{:,.2f}".format(amount) for an amount of `cents` hundredths. */
  function WithCommasCents(cents: int): (r: string)
  {
    if cents < 0 then "-" + UnsignedWithCommas(-cents) else UnsignedWithCommas(cents)
  }

  /** Deleting the commas from the unsigned rendering leaves whole units, point and two digits. */
  lemma UnsignedWithoutCommas(a: nat)
    ensures RemoveAll(UnsignedWithCommas(a), ',') == NatToString(a / 100) + ("." + TwoDigits(a % 100))
  {
    var whole := NatToString(a / 100);
    var rest := "." + TwoDigits(a % 100);
    assert UnsignedWithCommas(a) == Group(whole) + rest;
    NoCharInDigits(TwoDigits(a % 100), ',');
    assert ',' !in rest;
    RemoveAllAbsent(rest, ',');
    GroupRemoveCommas(whole);
    RemoveAllConcat(Group(whole), rest, ',');
  }

  /** In whole units, a point and a fraction, the first point separates the two. */
  lemma SplitAtPoint(whole: string, frac: string)
    requires AllDigits(whole)
    ensures var body := whole + ("." + frac);
      IndexOf(body, '.') == |whole| && body[..|whole|] == whole && body[|whole| + 1..] == frac
  {
    var body := whole + ("." + frac);
    assert forall i :: 0 <= i < |whole| ==> whole[i] != '.';
    IndexOfAfter(whole, "." + frac, '.');
    assert body[..|whole|] == whole;
    assert body[|whole| + 1..] == frac;
  }

  lemma UnsignedCentsAt(body: string, whole: string, frac: string)
    requires AllDigits(whole) && |whole| >= 1 && AllDigits(frac) && |frac| == 2
    requires IndexOf(body, '.') == |whole| < |body|
    requires body[..|whole|] == whole && body[|whole| + 1..] == frac
    ensures UnsignedCents(body) == Some(DigitsValue(whole) * 100 + DigitsValue(frac))
  {
  }

  /** Decimal() reads whole units, a point and two digits as that many cents. */
  lemma UnsignedAmountParses(a: nat)
    ensures UnsignedCents(NatToString(a / 100) + ("." + TwoDigits(a % 100))) == Some(a)
  {
    UnsignedAmountParts(a / 100, a % 100);
    HundredsAndRest(a);
  }

  lemma UnsignedAmountParts(units: nat, rest: nat)
    requires rest < 100
    ensures UnsignedCents(NatToString(units) + ("." + TwoDigits(rest))) == Some(units * 100 + rest)
  {
    var whole := NatToString(units);
    var frac := TwoDigits(rest);
    SplitAtPoint(whole, frac);
    UnsignedCentsAt(whole + ("." + frac), whole, frac);
  }

  lemma HundredsAndRest(a: nat)
    ensures (a / 100) * 100 + a % 100 == a
  {
  }

  /** The unsigned rendering, commas deleted, reads back as the amount. */
  lemma UnsignedWithCommasParses(a: nat, w: string)
    requires w == UnsignedWithCommas(a)
    ensures ParseCents(RemoveAll(w, ',')) == Some(a)
  {
    var body := RemoveAll(w, ',');
    UnsignedWithoutCommas(a);
    UnsignedAmountParses(a);
    assert body[0] == NatToString(a / 100)[0];
    assert body[|body| - 1] == TwoDigits(a % 100)[1];
    ParseUnsignedCents(body, a);
  }

  /** The same after a minus sign reads back as the negated amount. */
  lemma NegatedWithCommasParses(a: nat, w: string)
    requires w == "-" + UnsignedWithCommas(a)
    ensures ParseCents(RemoveAll(w, ',')) == Some(-(a as int))
  {
    var u := UnsignedWithCommas(a);
    var body := RemoveAll(u, ',');
    UnsignedWithoutCommas(a);
    UnsignedAmountParses(a);
    assert body[0] == NatToString(a / 100)[0];
    assert body[|body| - 1] == TwoDigits(a % 100)[1];
    ParseNegatedCents(body, a);
    RemoveAllConcat("-", u, ',');
    assert RemoveAll("-", ',') == "-";
  }

  /** Deleting the commas and reading the result back as a Decimal gives the amount. */
  lemma WithCommasCentsParses(cents: int)
    ensures ParseCents(RemoveAll(WithCommasCents(cents), ',')) == Some(cents)
  {
    var w := WithCommasCents(cents);
    if cents < 0 {
      assert w == "-" + UnsignedWithCommas(-cents);
      NegatedWithCommasParses(-cents, w);
    } else {
      assert w == UnsignedWithCommas(cents);
      UnsignedWithCommasParses(cents, w);
    }
  }
}
