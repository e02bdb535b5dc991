/**
 * The template filters that render amounts, for integer inputs and None.
 */
module Filters {
  import opened Wrappers
  import opened Text
  import opened Numerals

  /** thousands_separator: "{:,.0f}" of the exact value; None shows "0". */
  function ThousandsSeparator(value: Option<int>): (r: string)
    ensures value.None? ==> r == "0"
    ensures value.Some? ==> RemoveAll(r, ',') == IntToString(value.value)
  {
    match value
    case None => "0"
    case Some(n) => WithCommas(n)
  }

  /** format_currency: the same digits after "TZS "; None shows "TZS 0". */
  function FormatCurrency(value: Option<int>): (r: string)
    ensures value.None? ==> r == "TZS 0"
    ensures IsPrefix("TZS ", r)
  {
    match value
    case None => "TZS 0"
    case Some(n) => "TZS " + WithCommas(n)
  }

  /** currency_display: thousands_separator under another name. */
  function CurrencyDisplay(value: Option<int>): (r: string)
    ensures r == ThousandsSeparator(value)
  {
    ThousandsSeparator(value)
  }

  /** intcomma: "{:,}" of int(value); None shows "0". */
  function Intcomma(value: Option<int>): (r: string)
    ensures value.None? ==> r == "0"
  {
    match value
    case None => "0"
    case Some(n) => WithCommas(n)
  }

  /** abs_value: the magnitude; None gives 0. */
  function AbsValue(value: Option<int>): (r: nat)
    ensures value.None? ==> r == 0
    ensures value.Some? ==> r == value.value || r == -value.value
  {
    match value
    case None => 0
    case Some(n) => if n < 0 then -n else n
  }

  /** Every input, None included, renders as currency with "TZS " before the separated digits. */
  lemma FormatCurrencyIsPrefixedSeparator(value: Option<int>)
    ensures FormatCurrency(value) == "TZS " + ThousandsSeparator(value)
  {
  }

  /** intcomma groups digits in threes, and deleting the commas gives int()'s reading back. */
  lemma IntcommaRoundTrip(n: int)
    ensures ParseInt(RemoveAll(Intcomma(Some(n)), ',')) == Some(n)
    ensures n >= 0 ==> WellGrouped(Intcomma(Some(n)))
    ensures n < 0 ==> Intcomma(Some(n))[0] == '-' && WellGrouped(Intcomma(Some(n))[1..])
  {
    WithCommasParses(n);
    WithCommasShape(n);
  }

  /** intcomma and thousands_separator agree on integers and on None. */
  lemma IntcommaMatchesSeparator(value: Option<int>)
    ensures Intcomma(value) == ThousandsSeparator(value)
  {
  }

  /** abs_value is never negative and ignores the sign. */
  lemma AbsValueIgnoresSign(n: int)
    ensures AbsValue(Some(n)) == AbsValue(Some(-n))
    ensures AbsValue(Some(n)) == 0 <==> n == 0
  {
  }
}
