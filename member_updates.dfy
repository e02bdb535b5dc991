/**
 * The single-member endpoints: the inline edit of a pledge or paid total, the
 * two ways of recording a payment (the member page's form and the
 * daily-collection endpoint), and the quick add-member check. Money is
 * integer cents; JSON values arrive as the text str() gives them.
 */
module MemberUpdates {
  import opened Wrappers
  import opened Text
  import opened Numerals
  import opened Ledger
  import opened Forms

  /** The two fields the inline editor may change. */
  predicate EditableField(field: string)
  {
    field == "pledge" || field == "paid_total"
  }

  /**
   * The inline editor's reading of a value: a null or empty value is 0,
   * otherwise commas are deleted and the rest read as a Decimal (None when
   * it does not read), and a negative amount becomes 0.
   */
  function InlineValue(value: Option<string>): (r: Option<nat>)
    ensures value.None? || value == Some("") ==> r == Some(0)
    ensures value.Some? && value.value != "" ==> (r.None? <==> ParseCents(RemoveAll(value.value, ',')).None?)
    ensures value.Some? && value.value != "" && ParseCents(RemoveAll(value.value, ',')).Some? ==>
      var v := ParseCents(RemoveAll(value.value, ',')).value;
      r == Some(if v < 0 then 0 else v)
    ensures r.Some? && r.value > 0 ==> value.Some? && ParseCents(RemoveAll(value.value, ',')) == Some(r.value)
  {
    if value.None? || value.value == "" then Some(0)
    else
      match ParseCents(RemoveAll(value.value, ','))
      case None => None
      case Some(v) => Some(if v < 0 then 0 else v)
  }

  /** A value shown with thousands separators reads back as itself, a negative one as 0. */
  lemma InlineValueReadsRendering(c: int)
    ensures InlineValue(Some(WithCommasCents(c))) == Some(if c < 0 then 0 else c)
  {
    WithCommasCentsParses(c);
    var w := WithCommasCents(c);
    if c < 0 {
      assert w == "-" + UnsignedWithCommas(-c);
    } else {
      assert w == UnsignedWithCommas(c);
    }
    assert |w| > 0;
  }

  datatype InlineOutcome = InlineUpdated | InvalidValue | InvalidField

  /**
   * update_member_ajax: sets the named field to the cleaned value and saves.
   * The paid total is written directly, not recomputed from the payments.
   */
  method UpdateMemberField(acct: MemberAccount, field: string, value: Option<string>) returns (outcome: InlineOutcome)
    modifies acct
    ensures !EditableField(field) ==> outcome == InvalidField
    ensures EditableField(field) && InlineValue(value).None? ==> outcome == InvalidValue
    ensures outcome != InlineUpdated ==> unchanged(acct)
    ensures outcome == InlineUpdated <==> EditableField(field) && InlineValue(value).Some?
    ensures outcome == InlineUpdated ==>
      && acct.name == old(acct.name) && acct.transactions == old(acct.transactions)
      && (field == "pledge" ==> acct.pledge == InlineValue(value).value && acct.paidTotal == old(acct.paidTotal))
      && (field == "paid_total" ==> acct.paidTotal == InlineValue(value).value && acct.pledge == old(acct.pledge))
  {
    if !EditableField(field) {
      return InvalidField;
    }
    var cleaned := InlineValue(value);
    if cleaned.None? {
      return InvalidValue;
    }
    if field == "pledge" {
      acct.pledge := cleaned.value;
    } else {
      acct.paidTotal := cleaned.value;
    }
    outcome := InlineUpdated;
  }

  const PaymentFieldsRequired: string := "Member ID and payment amount are required"
  const PaymentNotPositive: string := "Payment amount must be greater than 0"
  const PaymentUnreadable: string := "Invalid payment amount"

  /**
   * record_daily_payment_ajax's checks: both the member id and the amount must
   * be given, the amount (commas deleted) must read as a Decimal, and it must
   * be positive. There is no upper limit.
   */
  function DailyPaymentAmount(memberId: Option<int>, amount: Option<string>): (r: Cleaned<int>)
    ensures r.Accepted? <==> memberId.Some? && memberId.value != 0 && amount.Some? && amount.value != ""
                             && ParseCents(RemoveAll(amount.value, ',')).Some?
                             && ParseCents(RemoveAll(amount.value, ',')).value > 0
    ensures r.Accepted? ==> r.value > 0 && Some(r.value) == ParseCents(RemoveAll(amount.value, ','))
  {
    if memberId.None? || memberId.value == 0 || amount.None? || amount.value == "" then
      Rejected(PaymentFieldsRequired)
    else
      match ParseCents(RemoveAll(amount.value, ','))
      case None => Rejected(PaymentUnreadable)
      case Some(c) => if c <= 0 then Rejected(PaymentNotPositive) else Accepted(c)
  }

  /** The daily endpoint takes any positive amount it can read back from its rendering, however large; the form caps it. */
  lemma DailyPaymentHasNoCeiling(c: int)
    requires c > MaxPayment
    ensures DailyPaymentAmount(Some(1), Some(WithCommasCents(c))) == Accepted(c)
    ensures CleanAmount(Some(c)) == Rejected(AmountTooLarge)
  {
    WithCommasCentsParses(c);
    assert WithCommasCents(c) == UnsignedWithCommas(c);
  }

  /**
   * Recording a daily payment: when the checks pass, a new payment is saved,
   * which recomputes the member's total; otherwise nothing changes.
   */
  method RecordDailyPayment(acct: MemberAccount, paymentId: int, memberId: Option<int>, amount: Option<string>)
    returns (r: Cleaned<int>)
    requires paymentId !in Ids(acct.transactions)
    modifies acct
    ensures r == DailyPaymentAmount(memberId, amount)
    ensures r.Rejected? ==> unchanged(acct)
    ensures r.Accepted? ==> acct.transactions == old(acct.transactions) + [Transaction(paymentId, r.value)]
    ensures r.Accepted? ==> acct.paidTotal == old(Sum(acct.transactions)) + r.value
    ensures r.Accepted? && old(acct.Valid()) ==> acct.Valid()
  {
    r := DailyPaymentAmount(memberId, amount);
    if r.Accepted? {
      var t := Transaction(paymentId, r.value);
      SumUpsert(acct.transactions, t);
      AmountOfAbsent(acct.transactions, paymentId);
      acct.SaveTransaction(t);
    }
  }

  const DetailNotPositive: string := "Payment amount must be greater than zero."

  /** The member page's own check on the form's amount. */
  function DetailPaymentCheck(amount: int): (r: Cleaned<int>)
    ensures r.Accepted? <==> amount > 0
    ensures r.Accepted? ==> r.value == amount
  {
    if amount <= 0 then Rejected(DetailNotPositive) else Accepted(amount)
  }

  /** The member page's check never fires on an amount the payment form accepted. */
  lemma FormAmountsPassDetailCheck(amount: Option<int>, date: Option<Calendar.Date>, note: string, today: Calendar.Date)
    requires Calendar.Valid(today)
    requires ValidatePayment(amount, date, note, today).ValidForm?
    ensures DetailPaymentCheck(ValidatePayment(amount, date, note, today).payment.amount).Accepted?
  {
  }

  /**
   * member_detail on a valid form: a payment with the form's amount is saved
   * and the total recomputed from all payments.
   */
  method RecordFormPayment(acct: MemberAccount, paymentId: int, form: Payment) returns (r: Cleaned<int>)
    requires paymentId !in Ids(acct.transactions)
    modifies acct
    ensures r == DetailPaymentCheck(form.amount)
    ensures r.Rejected? ==> unchanged(acct)
    ensures r.Accepted? ==> acct.transactions == old(acct.transactions) + [Transaction(paymentId, form.amount)]
    ensures r.Accepted? ==> acct.paidTotal == Sum(acct.transactions) == old(Sum(acct.transactions)) + form.amount
  {
    r := DetailPaymentCheck(form.amount);
    if r.Accepted? {
      var t := Transaction(paymentId, form.amount);
      SumUpsert(acct.transactions, t);
      AmountOfAbsent(acct.transactions, paymentId);
      acct.SaveTransaction(t);
      acct.UpdatePaidTotal();
    }
  }

  const NameRequired: string := "Name is required"
  const AlreadyExists: string := "Member already exists"

  /** Some existing name equals `name` ignoring case. */
  predicate NameTaken(existing: seq<string>, name: string)
  {
    exists i :: 0 <= i < |existing| && Lower(existing[i]) == Lower(name)
  }

  /** No two names are equal ignoring case. */
  predicate DistinctIgnoringCase(names: seq<string>)
  {
    forall i, j :: 0 <= i < j < |names| ==> Lower(names[i]) != Lower(names[j])
  }

  /**
   * The "pledge" entry of the request: missing (the default applies), a
   * value Decimal() reads, or one it refuses (null, or text that is not a
   * number) together with the exception's message.
   */
  datatype PledgeInput = PledgeAbsent | PledgeValue(cents: int) | PledgeUnreadable(failure: string)

  /**
   * add_member_ajax: a name is required and must not match an existing one
   * ignoring case; the new member gets the given pledge (70,000.00 by
   * default) and nothing paid, and a pledge Decimal() refuses fails the
   * request with the exception's message.
   */
  function AddMember(name: Option<string>, pledge: PledgeInput, existing: seq<string>): (r: Cleaned<Member>)
    ensures name.None? || name == Some("") ==> r == Rejected(NameRequired)
    ensures r.Accepted? <==> name.Some? && name.value != "" && !NameTaken(existing, name.value) && !pledge.PledgeUnreadable?
    ensures r.Accepted? ==> NotStarted(r.value) && r.value.name == name.value
    ensures r.Accepted? ==> r.value.pledge == (if pledge.PledgeValue? then pledge.cents else DefaultPledge)
    ensures name.Some? && name.value != "" && NameTaken(existing, name.value) ==> r == Rejected(AlreadyExists)
    ensures name.Some? && name.value != "" && !NameTaken(existing, name.value) && pledge.PledgeUnreadable? ==>
      r == Rejected(pledge.failure)
  {
    if name.None? || name.value == "" then Rejected(NameRequired)
    else if NameTaken(existing, name.value) then Rejected(AlreadyExists)
    else match pledge
      case PledgeAbsent => Accepted(Member(name.value, DefaultPledge, 0))
      case PledgeValue(cents) => Accepted(Member(name.value, cents, 0))
      case PledgeUnreadable(failure) => Rejected(failure)
  }

  /** Adding members this way keeps the names distinct ignoring case. */
  lemma AddMemberKeepsNamesDistinct(name: Option<string>, pledge: PledgeInput, existing: seq<string>)
    requires DistinctIgnoringCase(existing)
    requires AddMember(name, pledge, existing).Accepted?
    ensures DistinctIgnoringCase(existing + [name.value])
  {
    var names := existing + [name.value];
    forall i, j | 0 <= i < j < |names| ensures Lower(names[i]) != Lower(names[j]) {
      if j == |existing| {
        assert names[i] == existing[i];
      } else {
        assert names[i] == existing[i] && names[j] == existing[j];
      }
    }
  }
}
