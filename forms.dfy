/**
 * The form-level validators: the payment form's amount, date and note
 * cleaners, the spreadsheet upload check, and the member form's initial
 * pledge. Money is integer cents; dates are calendar dates.
 */
module Forms {
  import opened Wrappers
  import opened Text
  import opened Calendar

  /** A cleaned field value, or the validation error shown for it. */
  datatype Cleaned<T> = Accepted(value: T) | Rejected(error: string)

  /** The largest payment the form accepts: 10,000,000 TZS. */
  const MaxPayment: int := 1000000000

  /** The furthest a payment may be dated ahead of today, in days. */
  const FutureDays: nat := 30

  /** The longest note kept, after stripping. */
  const MaxNoteLength: nat := 500

  /** The largest accepted upload: 5 MiB. */
  const MaxUploadBytes: nat := 5 * 1024 * 1024

  const AmountRequired: string := "Payment amount is required."
  const AmountNotPositive: string := "Payment amount must be greater than zero."
  const AmountTooLarge: string := "Payment amount cannot exceed 10,000,000 TZS."

  /** TransactionForm.clean_amount: a positive amount of at most 10,000,000 TZS passes unchanged. */
  function CleanAmount(amount: Option<int>): (r: Cleaned<int>)
    ensures r.Accepted? <==> amount.Some? && 0 < amount.value <= MaxPayment
    ensures r.Accepted? ==> r.value == amount.value
    ensures amount.None? ==> r == Rejected(AmountRequired)
    ensures amount.Some? && amount.value <= 0 ==> r == Rejected(AmountNotPositive)
    ensures amount.Some? && amount.value > MaxPayment ==> r == Rejected(AmountTooLarge)
  {
    match amount
    case None => Rejected(AmountRequired)
    case Some(a) =>
      if a <= 0 then Rejected(AmountNotPositive)
      else if a > MaxPayment then Rejected(AmountTooLarge)
      else Accepted(a)
  }

  const DateRequired: string := "Payment date is required."
  const DateTooFar: string := "Payment date cannot be more than 30 days in the future."

  /** TransactionForm.clean_date: any date up to 30 days after today passes unchanged. */
  function CleanDate(date: Option<Date>, today: Date): (r: Cleaned<Date>)
    requires Valid(today)
    ensures r.Accepted? <==> date.Some? && !Before(AddDays(today, FutureDays), date.value)
    ensures r.Accepted? ==> r.value == date.value
    ensures date.None? ==> r == Rejected(DateRequired)
    ensures date.Some? && r.Rejected? ==> r.error == DateTooFar
  {
    match date
    case None => Rejected(DateRequired)
    case Some(d) =>
      if Before(AddDays(today, FutureDays), d) then Rejected(DateTooFar)
      else Accepted(d)
  }

  /** Today, any earlier day, and the thirtieth day ahead all pass; the thirty-first does not. */
  lemma DateHorizon(today: Date, d: Date)
    requires Valid(today)
    ensures !Before(today, d) ==> CleanDate(Some(d), today) == Accepted(d)
    ensures CleanDate(Some(AddDays(today, FutureDays)), today).Accepted?
    ensures CleanDate(Some(AddDays(today, FutureDays + 1)), today) == Rejected(DateTooFar)
  {
    var limit := AddDays(today, FutureDays);
    AddDaysNotBefore(today, FutureDays);
    if Before(limit, d) && !Before(today, d) {
      BeforeTransitive(today, limit, d);
    }
    AddDaysStep(today, FutureDays);
    AddDaysNotBefore(limit, 1);
    assert AddDays(limit, 1) == NextDay(limit);
  }

  const NoteTooLong: string := "Note cannot exceed 500 characters."

  /** TransactionForm.clean_note: the stripped note, refused when longer than 500 characters. */
  function CleanNote(note: string): (r: Cleaned<string>)
    ensures r.Accepted? <==> |Strip(note)| <= MaxNoteLength
    ensures r.Accepted? ==> r.value == Strip(note)
    ensures r.Rejected? ==> r.error == NoteTooLong
  {
    var stripped := Strip(note);
    if |stripped| > MaxNoteLength then Rejected(NoteTooLong) else Accepted(stripped)
  }

  /** Stripping twice strips nothing more. */
  lemma StripIdempotent(s: string)
    ensures Strip(Strip(s)) == Strip(s)
  {
    StripUnchanged(Strip(s));
  }

  /** A cleaned note cleans to itself. */
  lemma CleanNoteIdempotent(note: string)
    requires CleanNote(note).Accepted?
    ensures CleanNote(CleanNote(note).value) == CleanNote(note)
  {
    StripIdempotent(note);
  }

  /** An uploaded file: its name and size in bytes. */
  datatype Upload = Upload(name: string, size: nat)

  const NoFile: string := "No file uploaded."
  const NotXlsx: string := "Only .xlsx files are supported (Excel 2007+)."
  const TooLarge: string := "The uploaded file is too large. Max size is 5MB."

  /** ExcelImportForm.clean_excel_file: a present .xlsx file of at most 5 MiB passes; checks run in this order. */
  function CleanExcelFile(file: Option<Upload>): (r: Cleaned<Upload>)
    ensures r.Accepted? <==> file.Some? && EndsWith(file.value.name, ".xlsx") && file.value.size <= MaxUploadBytes
    ensures r.Accepted? ==> r.value == file.value
    ensures file.None? ==> r == Rejected(NoFile)
    ensures file.Some? && !EndsWith(file.value.name, ".xlsx") ==> r == Rejected(NotXlsx)
    ensures file.Some? && EndsWith(file.value.name, ".xlsx") && file.value.size > MaxUploadBytes ==> r == Rejected(TooLarge)
  {
    match file
    case None => Rejected(NoFile)
    case Some(f) =>
      if !EndsWith(f.name, ".xlsx") then Rejected(NotXlsx)
      else if f.size > MaxUploadBytes then Rejected(TooLarge)
      else Accepted(f)
  }

  /** The suffix test is case-sensitive: "BOOK.XLSX" is refused while "book.xlsx" passes. */
  lemma XlsxSuffixIsCaseSensitive()
    ensures CleanExcelFile(Some(Upload("BOOK.XLSX", 10))) == Rejected(NotXlsx)
    ensures CleanExcelFile(Some(Upload("book.xlsx", MaxUploadBytes))).Accepted?
  {
    assert "BOOK.XLSX"[4..] != ".xlsx" by {
      assert "BOOK.XLSX"[5] == 'X';
    }
    assert "book.xlsx"[4..] == ".xlsx";
  }

  /** Member.pledge's model default, 70,000.00, in cents. */
  const ModelDefaultPledge: int := 7000000

  /**
   * MemberForm.__init__'s override of the pledge field's initial value:
   * 70,000.00 for a member not yet saved; None for an existing one, where
   * the field keeps the initial Django gave it.
   */
  function MemberFormInitialPledge(hasPrimaryKey: bool): (r: Option<int>)
    ensures r.Some? <==> !hasPrimaryKey
    ensures r.Some? ==> r.value == 7000000
  {
    if !hasPrimaryKey then Some(7000000) else None
  }

  /**
   * The pledge field's initial value after __init__: the override when there
   * is one, otherwise the model default Django copies into the field. Either
   * way 70,000.00, so the override changes nothing.
   */
  function PledgeFieldInitial(hasPrimaryKey: bool): (r: int)
    ensures r == ModelDefaultPledge
  {
    MemberFormInitialPledge(hasPrimaryKey).GetOr(ModelDefaultPledge)
  }

  /** Django's message for a required field left empty. */
  const FieldRequired: string := "This field is required."

  /**
   * The form field Django derives from the model's DecimalField(max_digits=10,
   * decimal_places=2) runs Django's DecimalValidator: more than ten digits in
   * all is refused first, then more than eight before the point. The model's
   * own 0.01 minimum is not a form-field validator.
   */
  const TotalDigitsExceeded: string := "Ensure that there are no more than 10 digits in total."
  const WholeDigitsExceeded: string := "Ensure that there are no more than 8 digits before the decimal point."
  const MaxDigits: nat := 10
  const MaxWholeDigits: nat := 8

  /** The smallest amount with nine digits before the point (10^8 units), in cents. */
  const DigitLimit: int := 10000000000

  function Pow10(k: nat): (p: nat)
    ensures p >= 1
  {
    if k == 0 then 1 else 10 * Pow10(k - 1)
  }

  /** The number of decimal digits of n, none for 0. */
  function DigitCount(n: nat): nat
  {
    if n == 0 then 0 else 1 + DigitCount(n / 10)
  }

  /** n has more than k digits exactly when it is at least 10^k. */
  lemma {:induction false} DigitCountAbove(n: nat, k: nat)
    ensures DigitCount(n) > k <==> n >= Pow10(k)
  {
    if k > 0 && n != 0 {
      DigitCountAbove(n / 10, k - 1);
    }
  }

  /** The places after the point an amount of `cents` is written with: none, one or two. */
  function Places(cents: nat): (d: nat)
    ensures d <= 2
  {
    if cents % 100 == 0 then 0 else if cents % 10 == 0 then 1 else 2
  }

  /**
   * DecimalValidator on an amount written without trailing zeros after the
   * point: the whole digits and the places together may not exceed ten, and
   * the whole digits alone may not exceed eight.
   */
  function DigitError(a: int): (e: Option<string>)
    ensures e.Some? <==> a >= DigitLimit || a <= -DigitLimit
  {
    var m := if a < 0 then -a else a;
    var whole := DigitCount(m / 100);
    DigitCountAbove(m / 100, MaxWholeDigits);
    if whole + Places(m) > MaxDigits then Some(TotalDigitsExceeded)
    else if whole > MaxWholeDigits then Some(WholeDigitsExceeded)
    else None
  }

  /** Nine or ten whole digits, with at most one place after the point, get the eight-digit message. */
  lemma WholeDigitsMessageCases()
    ensures DigitError(10000000000) == Some(WholeDigitsExceeded)      // 100,000,000 TZS
    ensures DigitError(10000000050) == Some(WholeDigitsExceeded)      // 100,000,000.5 TZS
    ensures DigitError(-999999999900) == Some(WholeDigitsExceeded)    // -9,999,999,999 TZS
  {
    DigitCountAbove(100000000, 8);
    DigitCountAbove(100000000, 9);
    DigitCountAbove(9999999999, 8);
    DigitCountAbove(9999999999, 10);
  }

  /** Eleven whole digits, or nine with two places, get the ten-digit message; 99,999,999.99 passes. */
  lemma TotalDigitsMessageCases()
    ensures DigitError(1000000000000) == Some(TotalDigitsExceeded)    // 10,000,000,000 TZS
    ensures DigitError(10000000055) == Some(TotalDigitsExceeded)      // 100,000,000.55 TZS
    ensures DigitError(9999999999) == None                            // 99,999,999.99 TZS
  {
    DigitCountAbove(10000000000, 10);
    DigitCountAbove(100000000, 8);
    DigitCountAbove(100000000, 9);
  }

  /** The amount field as Django cleans it: the required check, then the digit limits, then clean_amount. */
  function AmountField(amount: Option<int>): (r: Cleaned<int>)
    ensures r.Accepted? <==> CleanAmount(amount).Accepted?
    ensures r.Accepted? ==> r.value == amount.value
    ensures amount.None? ==> r == Rejected(FieldRequired)
    ensures amount.Some? && DigitError(amount.value).Some? ==> r == Rejected(DigitError(amount.value).value)
    ensures amount.Some? && (amount.value >= DigitLimit || amount.value <= -DigitLimit) ==>
      r == Rejected(TotalDigitsExceeded) || r == Rejected(WholeDigitsExceeded)
    ensures amount.Some? && -DigitLimit < amount.value <= 0 ==> r == Rejected(AmountNotPositive)
    ensures amount.Some? && MaxPayment < amount.value < DigitLimit ==> r == Rejected(AmountTooLarge)
    ensures r.Rejected? ==> r.error != AmountRequired
  {
    match amount
    case None => Rejected(FieldRequired)
    case Some(a) =>
      match DigitError(a)
      case Some(e) => Rejected(e)
      case None => CleanAmount(amount)
  }

  /** The date field: the required check, then clean_date. */
  function DateField(date: Option<Date>, today: Date): (r: Cleaned<Date>)
    requires Valid(today)
    ensures r.Accepted? <==> CleanDate(date, today).Accepted?
    ensures date.None? ==> r == Rejected(FieldRequired)
    ensures date.Some? ==> r == CleanDate(date, today)
    ensures r.Rejected? ==> r.error != DateRequired
  {
    if date.None? then Rejected(FieldRequired) else CleanDate(date, today)
  }

  /** The payment form's amount and date once cleaned. */
  datatype Payment = Payment(amount: int, date: Date, note: string)

  /** A bound form: valid with its cleaned payment, or invalid with the messages the member page shows. */
  datatype PaymentForm = ValidForm(payment: Payment) | InvalidForm(errors: seq<string>)

  const AmountLabel: string := "Payment Amount (TZS)"
  const DateLabel: string := "Payment Date"
  const NoteLabel: string := "Notes (Optional)"

  /** The message shown for one field: its caption and error, or none when it cleaned. */
  function FieldMessages<T>(caption: string, c: Cleaned<T>): (m: seq<string>)
    ensures |m| == (if c.Rejected? then 1 else 0)
    ensures c.Rejected? ==> m[0] == caption + ": " + c.error
  {
    if c.Rejected? then [caption + ": " + c.error] else []
  }

  /**
   * The whole payment form as the member page reports it: each field is
   * cleaned on its own, and every failing field contributes one message
   * "label: error", in the field order amount, date, note.
   */
  function ValidatePayment(amount: Option<int>, date: Option<Date>, note: string, today: Date): (r: PaymentForm)
    requires Valid(today)
    ensures r.ValidForm? <==> CleanAmount(amount).Accepted? && CleanDate(date, today).Accepted? && CleanNote(note).Accepted?
    ensures r.ValidForm? ==> r.payment == Payment(amount.value, date.value, Strip(note))
    ensures r.InvalidForm? ==>
      r.errors == FieldMessages(AmountLabel, AmountField(amount))
        + FieldMessages(DateLabel, DateField(date, today))
        + FieldMessages(NoteLabel, CleanNote(note))
    ensures r.InvalidForm? ==> 1 <= |r.errors| <= 3
  {
    var a := AmountField(amount);
    var d := DateField(date, today);
    var n := CleanNote(note);
    if a.Accepted? && d.Accepted? && n.Accepted? then ValidForm(Payment(a.value, d.value, n.value))
    else InvalidForm(FieldMessages(AmountLabel, a) + FieldMessages(DateLabel, d) + FieldMessages(NoteLabel, n))
  }

  /**
   * Every failing field is reported, not only the first: an empty form shows
   * the amount's and the date's "required" messages, in that order, and never
   * the clean_amount/clean_date "required" texts.
   */
  lemma EmptyFormReportsBothFields(note: string, today: Date)
    requires Valid(today)
    requires |note| <= MaxNoteLength
    ensures ValidatePayment(None, None, note, today).InvalidForm?
    ensures ValidatePayment(None, None, note, today).errors
      == [AmountLabel + ": " + FieldRequired, DateLabel + ": " + FieldRequired]
  {
  }
}
