/**
 * Subscription approval as the Django admin performs it: a paid request
 * moves the organisation's expiry by one of three priority-ordered rules,
 * a trial request restarts the seven-day trial only when none is running,
 * and the bulk action walks the selected requests, skipping those that are
 * not pending, recording per-request errors and counting what it changed.
 *
 * Time is an integer number of seconds; timedelta(days=d) is d * 86400 and
 * (a - b).days is the floor of (a - b) / 86400.
 */
module Subscription {
  import opened Wrappers
  import opened Text
  import opened Numerals
  import opened Messages

  const DaySeconds: int := 86400
  const TrialDays: int := 7
  const DaysPerMonth: int := 30

  /** timedelta(days=n) in seconds. */
  function Days(n: int): int { n * DaySeconds }

  datatype SubStatus = FreeTrial | NotSubscribed | Subscribed

  datatype RequestStatus = Pending | Approved | Declined

  /** The fields of an organisation the approval rules read and write. */
  datatype Org = Org(
    id: int,
    name: string,
    status: SubStatus,
    trialStart: Option<int>,
    expires: Option<int>,
    isActive: bool)

  /** A payment request; amounts are in cents. */
  datatype Request = Request(
    id: int,
    orgId: int,
    months: int,
    isTrial: bool,
    status: RequestStatus,
    createdAt: int,
    amount: int,
    amountSent: Option<int>,
    discountPercent: int,
    paymentMethod: string,
    referenceNote: string)

  // ---------------------------------------------------------------------
  // The expiry rules
  // ---------------------------------------------------------------------

  /** The subscription has an expiry that is still in the future. */
  predicate SubscriptionActive(o: Org, now: int) {
    o.expires.Some? && o.expires.value > now
  }

  function TrialEnd(start: int): int { start + Days(TrialDays) }

  /** A trial was started and its seven days have not yet run out. */
  predicate TrialActive(o: Org, now: int) {
    o.trialStart.Some? && TrialEnd(o.trialStart.value) > now
  }

  /** Whole days left in a running trial, 0 when none is running. */
  function RemainingTrialDays(o: Org, now: int): (d: int)
    ensures d >= 0
    ensures !TrialActive(o, now) ==> d == 0
    ensures TrialActive(o, now) ==>
      Days(d) <= TrialEnd(o.trialStart.value) - now < Days(d + 1)
  {
    if TrialActive(o, now) then (TrialEnd(o.trialStart.value) - now) / DaySeconds else 0
  }

  /** A trial started at or before now has at most seven whole days left, and at most six once any time has passed. */
  lemma RemainingTrialDaysBound(o: Org, now: int)
    requires TrialActive(o, now) && o.trialStart.value <= now
    ensures RemainingTrialDays(o, now) <= TrialDays
    ensures o.trialStart.value < now ==> RemainingTrialDays(o, now) <= TrialDays - 1
    ensures o.trialStart.value == now ==> RemainingTrialDays(o, now) == TrialDays
  {
  }

  /** The new expiry of a paid approval of `months` months. */
  function PaidExpiry(o: Org, months: int, now: int): int
    requires months > 0
  {
    if SubscriptionActive(o, now) then o.expires.value + Days(DaysPerMonth * months)
    else if TrialActive(o, now) then now + Days(RemainingTrialDays(o, now) + DaysPerMonth * months)
    else now + Days(DaysPerMonth * months)
  }

  /** The paid period always counts in full, from now and from any earlier expiry. */
  lemma PaidExpiryLowerBound(o: Org, months: int, now: int)
    requires months > 0
    ensures PaidExpiry(o, months, now) >= now + Days(DaysPerMonth * months)
    ensures o.expires.Some? ==>
      PaidExpiry(o, months, now) >= o.expires.value + Days(DaysPerMonth * months)
  {
  }

  /** An unexpired subscription is extended by exactly the paid period, even while a trial is also running. */
  lemma PaidExpiryStacks(o: Org, months: int, now: int)
    requires months > 0 && SubscriptionActive(o, now)
    ensures PaidExpiry(o, months, now) - o.expires.value == Days(DaysPerMonth * months)
  {
  }

  /**
   * Without a running subscription, the rest of a running trial is carried
   * into the new period, losing less than one day to the whole-day rounding.
   */
  lemma PaidExpiryCarriesTrial(o: Org, months: int, now: int)
    requires months > 0 && !SubscriptionActive(o, now) && TrialActive(o, now)
    ensures var carried := TrialEnd(o.trialStart.value) + Days(DaysPerMonth * months);
      carried - DaySeconds < PaidExpiry(o, months, now) <= carried
  {
  }

  /** With neither a subscription nor a trial running, the period starts now. */
  lemma PaidExpiryFromNow(o: Org, months: int, now: int)
    requires months > 0 && !SubscriptionActive(o, now) && !TrialActive(o, now)
    ensures PaidExpiry(o, months, now) - now == Days(DaysPerMonth * months)
  {
  }

  /** The expiry depends on the organisation only through its expiry and trial start. */
  lemma PaidExpiryIgnoresStatus(o: Org, p: Org, months: int, now: int)
    requires months > 0 && o.expires == p.expires && o.trialStart == p.trialStart
    ensures PaidExpiry(o, months, now) == PaidExpiry(p, months, now)
  {
  }

  // ---------------------------------------------------------------------
  // Approving one request
  // ---------------------------------------------------------------------

  /** What processing one pending request did. */
  datatype Outcome =
    | Extended(entry: string)   // a paid approval; the "name (expires: …)" entry
    | TrialStarted
    | NoChange
    | Failed(error: string)

  datatype Step = Step(request: Request, orgs: map<int, Org>, outcome: Outcome)

  /** The error text of a request whose organisation cannot be loaded. */
  function MissingOrgError(requestId: int): string {
    "PaymentRequest " + IntToString(requestId) + ": Organization matching query does not exist."
  }

  /** A trial may (re)start: none was started, or the last one has ended. */
  predicate TrialMayStart(o: Org, now: int) {
    o.trialStart.None? || TrialEnd(o.trialStart.value) <= now
  }

  /**
   * The body of the bulk loop for one pending request. The request is marked
   * approved before the organisation is touched, so it stays approved even
   * when the organisation step fails. `fmt` stands for strftime('%Y-%m-%d %H:%M').
   */
  function ApproveOne(r: Request, orgs: map<int, Org>, now: int, fmt: int -> string): (s: Step)
    ensures s.request == r.(status := Approved)
    ensures s.orgs.Keys == orgs.Keys
    ensures forall id :: id in orgs && id != r.orgId ==> s.orgs[id] == orgs[id]
  {
    var approved := r.(status := Approved);
    if r.months > 0 then
      if r.orgId !in orgs then Step(approved, orgs, Failed(MissingOrgError(r.id)))
      else
        var o := orgs[r.orgId];
        var saved := o.(expires := Some(PaidExpiry(o, r.months, now)), status := Subscribed);
        if saved.status != Subscribed || saved.expires.None? then
          Step(approved, orgs[r.orgId := saved], Failed(saved.name + ": Save verification failed"))
        else
          Step(approved, orgs[r.orgId := saved],
               Extended(saved.name + " (expires: " + fmt(saved.expires.value) + ")"))
    else if r.isTrial then
      if r.orgId !in orgs then Step(approved, orgs, Failed(MissingOrgError(r.id)))
      else
        var o := orgs[r.orgId];
        if TrialMayStart(o, now) then
          Step(approved, orgs[r.orgId := o.(trialStart := Some(now), status := FreeTrial)], TrialStarted)
        else Step(approved, orgs, NoChange)
    else Step(approved, orgs, NoChange)
  }

  /**
   * A paid approval of an existing organisation always passes the save
   * verification: the organisation ends subscribed with the expiry
   * `PaidExpiry` gives, so no earlier than the paid period counted from now
   * or from the old expiry, and nothing else about it changes.
   */
  lemma PaidApprovalSubscribes(r: Request, orgs: map<int, Org>, now: int, fmt: int -> string)
    requires r.months > 0 && r.orgId in orgs
    ensures var s := ApproveOne(r, orgs, now, fmt);
      var o := orgs[r.orgId];
      && s.outcome == Extended(o.name + " (expires: " + fmt(PaidExpiry(o, r.months, now)) + ")")
      && s.orgs[r.orgId].status == Subscribed
      && s.orgs[r.orgId].expires == Some(PaidExpiry(o, r.months, now))
      && s.orgs[r.orgId].expires.value >= now + Days(DaysPerMonth * r.months)
      && (o.expires.Some? ==> s.orgs[r.orgId].expires.value >= o.expires.value + Days(DaysPerMonth * r.months))
      && s.orgs[r.orgId].(status := o.status, expires := o.expires) == o
  {
    PaidExpiryLowerBound(orgs[r.orgId], r.months, now);
  }

  /** A paid or trial request for an organisation that does not exist is approved and fails, changing no organisation. */
  lemma MissingOrganisationFails(r: Request, orgs: map<int, Org>, now: int, fmt: int -> string)
    requires (r.months > 0 || r.isTrial) && r.orgId !in orgs
    ensures ApproveOne(r, orgs, now, fmt) == Step(r.(status := Approved), orgs, Failed(MissingOrgError(r.id)))
  {
  }

  /** A trial request starts a trial exactly when none is running; otherwise nothing changes. */
  lemma TrialApprovalOnlyWhenIdle(r: Request, orgs: map<int, Org>, now: int, fmt: int -> string)
    requires r.months <= 0 && r.isTrial && r.orgId in orgs
    ensures var s := ApproveOne(r, orgs, now, fmt);
      && (s.outcome.TrialStarted? <==> TrialMayStart(orgs[r.orgId], now))
      && (s.outcome.TrialStarted? ==>
            s.orgs[r.orgId] == orgs[r.orgId].(trialStart := Some(now), status := FreeTrial))
      && (!s.outcome.TrialStarted? ==> s.outcome == NoChange && s.orgs == orgs)
  {
  }

  /**
   * A trial request approved for an organisation that is subscribed but whose
   * old trial has ended sets the status back to FREE_TRIAL, keeping the expiry.
   */
  lemma TrialApprovalCanReplaceSubscribed(fmt: int -> string)
    ensures var o := Org(1, "Choir", Subscribed, Some(0), Some(Days(60)), true);
      var r := Request(5, 1, 0, true, Pending, 0, 0, None, 0, "", "");
      var s := ApproveOne(r, map[1 := o], Days(10), fmt);
      s.orgs[1].status == FreeTrial && s.orgs[1].expires == Some(Days(60))
  {
    var o := Org(1, "Choir", Subscribed, Some(0), Some(Days(60)), true);
    assert TrialMayStart(o, Days(10));
  }

  /** A request that is neither paid nor a trial is approved and changes no organisation. */
  lemma PlainApprovalChangesNothing(r: Request, orgs: map<int, Org>, now: int, fmt: int -> string)
    requires r.months <= 0 && !r.isTrial
    ensures ApproveOne(r, orgs, now, fmt) == Step(r.(status := Approved), orgs, NoChange)
  {
  }

  // ---------------------------------------------------------------------
  // The bulk action
  // ---------------------------------------------------------------------

  /** The state of approve_requests after some of the selected requests. */
  datatype Batch = Batch(
    requests: seq<Request>,      // the selected requests as they now stand
    orgs: map<int, Org>,
    count: nat,
    updated: seq<string>,
    errors: seq<string>)

  /** Adds the outcome of one pending request to the batch. */
  function Record(b: Batch, s: Step): Batch {
    var b1 := b.(requests := b.requests + [s.request], orgs := s.orgs);
    match s.outcome
    case Extended(entry) => b1.(count := b.count + 1, updated := b.updated + [entry])
    case TrialStarted => b1.(count := b.count + 1)
    case NoChange => b1
    case Failed(e) => b1.(errors := b.errors + [e])
  }

  /** One selected request: a pending one is processed, any other passes through untouched. */
  function Visit(b: Batch, r: Request, now: int, fmt: int -> string): Batch {
    if r.status == Pending then Record(b, ApproveOne(r, b.orgs, now, fmt))
    else b.(requests := b.requests + [r])
  }

  /** approve_requests over the selected requests, as a fold from the left. */
  function ApproveAll(sel: seq<Request>, orgs: map<int, Org>, now: int, fmt: int -> string): Batch
    decreases |sel|
  {
    if sel == [] then Batch([], orgs, 0, [], [])
    else Visit(ApproveAll(sel[..|sel| - 1], orgs, now, fmt), sel[|sel| - 1], now, fmt)
  }

  /** The bulk approval loop. */
  method ApproveRequests(sel: seq<Request>, orgs: map<int, Org>, now: int, fmt: int -> string)
    returns (b: Batch)
    ensures b == ApproveAll(sel, orgs, now, fmt)
  {
    b := Batch([], orgs, 0, [], []);
    var i := 0;
    while i < |sel|
      invariant 0 <= i <= |sel|
      invariant b == ApproveAll(sel[..i], orgs, now, fmt)
    {
      var r := sel[i];
      if r.status == Pending {
        var s := ApproveOne(r, b.orgs, now, fmt);
        b := Record(b, s);
      } else {
        b := b.(requests := b.requests + [r]);
      }
      assert sel[..i + 1][..i] == sel[..i];
      i := i + 1;
    }
    assert sel[..|sel|] == sel;
  }

  function PendingCount(sel: seq<Request>): nat
    decreases |sel|
  {
    if sel == [] then 0
    else PendingCount(sel[..|sel| - 1]) + (if sel[|sel| - 1].status == Pending then 1 else 0)
  }

  /** One visited request is appended: approved if it was pending, as it was otherwise. */
  lemma VisitAppends(b: Batch, r: Request, now: int, fmt: int -> string)
    ensures Visit(b, r, now, fmt).requests == b.requests + [AfterApproval(r)]
  {
  }

  /**
   * One visited request changes the counters exactly as its outcome says:
   * count grows for an extension or a started trial, the updated list for an
   * extension, the errors for a failure; a request that is not pending
   * changes none of them.
   */
  lemma VisitCounts(b: Batch, r: Request, now: int, fmt: int -> string)
    ensures var c := Visit(b, r, now, fmt);
      var out := ApproveOne(r, b.orgs, now, fmt).outcome;
      var pending := r.status == Pending;
      && c.count == b.count + (if pending && Counted(out) then 1 else 0)
      && |c.updated| == |b.updated| + (if pending && out.Extended? then 1 else 0)
      && |c.errors| == |b.errors| + (if pending && out.Failed? then 1 else 0)
  {
  }

  /** The request as approve_requests leaves it: approved if it was pending, untouched otherwise. */
  function AfterApproval(r: Request): Request {
    if r.status == Pending then r.(status := Approved) else r
  }

  /** Every pending request ends approved; every other one is left exactly as it was. */
  lemma {:induction false} ApproveAllStatuses(sel: seq<Request>, orgs: map<int, Org>, now: int, fmt: int -> string)
    ensures var b := ApproveAll(sel, orgs, now, fmt);
      |b.requests| == |sel| && forall i :: 0 <= i < |sel| ==> b.requests[i] == AfterApproval(sel[i])
    decreases |sel|
  {
    if sel != [] {
      var front := sel[..|sel| - 1];
      var b0 := ApproveAll(front, orgs, now, fmt);
      ApproveAllStatuses(front, orgs, now, fmt);
      VisitAppends(b0, sel[|sel| - 1], now, fmt);
      var b := ApproveAll(sel, orgs, now, fmt);
      assert b.requests == b0.requests + [AfterApproval(sel[|sel| - 1])];
      forall i | 0 <= i < |sel| ensures b.requests[i] == AfterApproval(sel[i]) {
        if i < |sel| - 1 {
          assert sel[i] == front[i];
        }
      }
    }
  }

  /** The outcomes that approve_requests counts: paid extensions and started trials. */
  predicate Counted(out: Outcome) {
    out.Extended? || out.TrialStarted?
  }

  /** The outcomes of the pending selected requests, in order, each against the organisations as the loop has left them. */
  function Outcomes(sel: seq<Request>, orgs: map<int, Org>, now: int, fmt: int -> string): seq<Outcome>
    decreases |sel|
  {
    if sel == [] then []
    else
      var front := sel[..|sel| - 1];
      var r := sel[|sel| - 1];
      Outcomes(front, orgs, now, fmt)
        + (if r.status == Pending then [ApproveOne(r, ApproveAll(front, orgs, now, fmt).orgs, now, fmt).outcome] else [])
  }

  /** How many outcomes are counted, extensions, and failures. */
  datatype Tally = Tally(counted: nat, extended: nat, failed: nat)

  function TallyOf(outs: seq<Outcome>): (t: Tally)
    ensures t.counted + t.failed <= |outs| && t.extended <= t.counted
    decreases |outs|
  {
    if outs == [] then Tally(0, 0, 0)
    else
      var t := TallyOf(outs[..|outs| - 1]);
      var out := outs[|outs| - 1];
      Tally(t.counted + (if Counted(out) then 1 else 0),
            t.extended + (if out.Extended? then 1 else 0),
            t.failed + (if out.Failed? then 1 else 0))
  }

  /**
   * The message counters of approve_requests: count is the number of paid
   * extensions and started trials, the updated list one entry per extension,
   * the errors one per failure; there is one outcome per pending request, so
   * count and errors together never exceed the pending requests.
   */
  lemma {:induction false} ApproveAllCounts(sel: seq<Request>, orgs: map<int, Org>, now: int, fmt: int -> string)
    ensures var b := ApproveAll(sel, orgs, now, fmt);
      var outs := Outcomes(sel, orgs, now, fmt);
      && |outs| == PendingCount(sel)
      && b.count == TallyOf(outs).counted
      && |b.updated| == TallyOf(outs).extended
      && |b.errors| == TallyOf(outs).failed
      && b.count + |b.errors| <= PendingCount(sel)
    decreases |sel|
  {
    if sel != [] {
      var front := sel[..|sel| - 1];
      var r := sel[|sel| - 1];
      var b0 := ApproveAll(front, orgs, now, fmt);
      ApproveAllCounts(front, orgs, now, fmt);
      VisitCounts(b0, r, now, fmt);
      var outs0 := Outcomes(front, orgs, now, fmt);
      if r.status == Pending {
        var outs := outs0 + [ApproveOne(r, b0.orgs, now, fmt).outcome];
        assert outs[..|outs| - 1] == outs0;
      } else {
        assert outs0 + [] == outs0;
      }
    }
  }

  /** The organisations of the pending selected requests. */
  function PendingOrgIds(sel: seq<Request>): set<int> {
    set i | 0 <= i < |sel| && sel[i].status == Pending :: sel[i].orgId
  }

  /** Organisations no pending selected request points at are left as they were. */
  lemma {:induction false} ApproveAllUntouched(sel: seq<Request>, orgs: map<int, Org>, now: int, fmt: int -> string)
    ensures var b := ApproveAll(sel, orgs, now, fmt);
      && b.orgs.Keys == orgs.Keys
      && forall id :: id in orgs && id !in PendingOrgIds(sel) ==> b.orgs[id] == orgs[id]
    decreases |sel|
  {
    if sel != [] {
      var front := sel[..|sel| - 1];
      ApproveAllUntouched(front, orgs, now, fmt);
      forall id | id in PendingOrgIds(front)
        ensures id in PendingOrgIds(sel)
      {
        var i :| 0 <= i < |front| && front[i].status == Pending && front[i].orgId == id;
        assert sel[i] == front[i];
      }
      if sel[|sel| - 1].status == Pending {
        assert sel[|sel| - 1].orgId in PendingOrgIds(sel);
      }
    }
  }

  /** A selection with no pending request changes nothing and counts nothing. */
  lemma {:induction false} ApproveAllWithoutPending(sel: seq<Request>, orgs: map<int, Org>, now: int, fmt: int -> string)
    requires forall i :: 0 <= i < |sel| ==> sel[i].status != Pending
    ensures ApproveAll(sel, orgs, now, fmt) == Batch(sel, orgs, 0, [], [])
    decreases |sel|
  {
    if sel != [] {
      ApproveAllWithoutPending(sel[..|sel| - 1], orgs, now, fmt);
      assert sel[..|sel| - 1] + [sel[|sel| - 1]] == sel;
    }
  }

  // ---------------------------------------------------------------------
  // The feedback message, decline, and the payment summary
  // ---------------------------------------------------------------------

  function ApprovedPrefix(count: nat): string {
    "Approved " + NatToString(count) + " payment request(s)"
  }

  /** The message shown after approve_requests. */
  function ApprovalMessage(b: Batch): (m: Message)
    ensures m.level == Warning <==> b.errors != []
    ensures m.level == Success <==> b.errors == [] && b.updated != []
    ensures IsPrefix(ApprovedPrefix(b.count), m.text)
  {
    var head := ApprovedPrefix(b.count);
    if b.errors != [] then Message(Warning, head + ". Errors: " + Join(b.errors, "; "))
    else if b.updated != [] then Message(Success, head + ". Updated: " + Join(b.updated, ", "))
    else Message(Info, head + " and extended subscriptions where applicable.")
  }

  /**
   * A warning names every error, and a success names every updated
   * organisation, in the message text.
   */
  lemma ApprovalMessageLists(b: Batch)
    ensures b.errors != [] ==>
      forall i :: 0 <= i < |b.errors| ==> Contains(ApprovalMessage(b).text, b.errors[i])
    ensures b.errors == [] && b.updated != [] ==>
      forall i :: 0 <= i < |b.updated| ==> Contains(ApprovalMessage(b).text, b.updated[i])
  {
    var head := ApprovedPrefix(b.count);
    if b.errors != [] {
      forall i | 0 <= i < |b.errors| ensures Contains(ApprovalMessage(b).text, b.errors[i]) {
        JoinListsEach(b.errors, "; ", i);
        ContainsInSuffix(head + ". Errors: ", Join(b.errors, "; "), b.errors[i]);
      }
    } else if b.updated != [] {
      forall i | 0 <= i < |b.updated| ensures Contains(ApprovalMessage(b).text, b.updated[i]) {
        JoinListsEach(b.updated, ", ", i);
        ContainsInSuffix(head + ". Updated: ", Join(b.updated, ", "), b.updated[i]);
      }
    }
  }

  datatype DeclineResult = DeclineResult(requests: seq<Request>, updated: nat)

  function DeclinedCount(sel: seq<Request>): nat
    ensures DeclinedCount(sel) <= |sel|
  {
    if sel == [] then 0 else (if sel[0].status == Declined then 1 else 0) + DeclinedCount(sel[1..])
  }

  /**
   * decline_requests: every selected request not already declined becomes
   * declined (approved ones included), and the reported number is how many
   * changed. No organisation is involved.
   */
  function DeclineAll(sel: seq<Request>): (d: DeclineResult)
    ensures |d.requests| == |sel|
    ensures forall i :: 0 <= i < |sel| ==> d.requests[i] == sel[i].(status := Declined)
    ensures d.updated + DeclinedCount(sel) == |sel|
  {
    if sel == [] then DeclineResult([], 0)
    else
      var rest := DeclineAll(sel[1..]);
      DeclineResult([sel[0].(status := Declined)] + rest.requests,
               rest.updated + (if sel[0].status == Declined then 0 else 1))
  }

  function DeclineMessage(d: DeclineResult): string {
    "Declined " + NatToString(d.updated) + " payment request(s)."
  }

  /** The notice counts the selected requests that were not declined already. */
  lemma DeclineMessageCountsChanges(sel: seq<Request>, changed: nat)
    requires changed + DeclinedCount(sel) == |sel|
    ensures DeclineMessage(DeclineAll(sel)) == "Declined " + NatToString(changed) + " payment request(s)."
  {
    var d := DeclineAll(sel);
    assert d.updated == changed;
  }

  /** Declining twice changes nothing the second time. */
  lemma DeclineTwice(sel: seq<Request>)
    ensures DeclineAll(DeclineAll(sel).requests).requests == DeclineAll(sel).requests
    ensures DeclineAll(DeclineAll(sel).requests).updated == 0
  {
    var once := DeclineAll(sel).requests;
    AllDeclinedCount(once);
  }

  lemma {:induction false} AllDeclinedCount(sel: seq<Request>)
    requires forall i :: 0 <= i < |sel| ==> sel[i].status == Declined
    ensures DeclinedCount(sel) == |sel|
  {
    if sel != [] {
      AllDeclinedCount(sel[1..]);
    }
  }

  /** No line is empty and none starts with `ch`. */
  predicate NoneStartWith(lines: seq<string>, ch: char) {
    forall i :: 0 <= i < |lines| ==> |lines[i]| > 0 && lines[i][0] != ch
  }

  lemma NoneStartWithConcat(a: seq<string>, b: seq<string>, ch: char)
    requires NoneStartWith(a, ch) && NoneStartWith(b, ch)
    ensures NoneStartWith(a + b, ch)
  {
    forall i | 0 <= i < |a + b| ensures |(a + b)[i]| > 0 && (a + b)[i][0] != ch {
      if i >= |a| {
        assert (a + b)[i] == b[i - |a|];
      }
    }
  }

  /** The line, when `present`. */
  function Optional(present: bool, line: string): (r: seq<string>)
    ensures |r| <= 1
    ensures present <==> r == [line]
  {
    if present then [line] else []
  }

  /** The payment method and reference lines. */
  function MethodAndReference(r: Request, methodLabel: string -> string): (d: seq<string>)
    ensures NoneStartWith(d, 'O') && NoneStartWith(d, 'D')
  {
    var via := Optional(r.paymentMethod != "", "Payment Method: " + methodLabel(r.paymentMethod));
    var reference := Optional(r.referenceNote != "", "Reference: " + r.referenceNote);
    NoneStartWithConcat(via, reference, 'O');
    NoneStartWithConcat(via, reference, 'D');
    via + reference
  }

  /** The amount-sent line followed by the payment method and reference lines. */
  function LaterLines(r: Request, methodLabel: string -> string): (d: seq<string>)
    ensures NoneStartWith(d, 'O') && NoneStartWith(d, 'D')
  {
    var sent := Optional(r.amountSent.Some? && r.amountSent.value != 0,
                         "Amount Sent: " + WithCommasCents(r.amountSent.GetOr(0)) + " TZS");
    var rest := MethodAndReference(r, methodLabel);
    NoneStartWithConcat(sent, rest, 'O');
    NoneStartWithConcat(sent, rest, 'D');
    sent + rest
  }

  /** The optional middle lines of the summary: discount, amount sent, payment method, reference. */
  function DetailLines(r: Request, methodLabel: string -> string): (d: seq<string>)
    ensures NoneStartWith(d, 'O')
    ensures r.discountPercent > 0 <==> |d| > 0 && d[0][0] == 'D'
  {
    var discount := Optional(r.discountPercent > 0, "Discount: " + IntToString(r.discountPercent) + "%");
    var rest := LaterLines(r, methodLabel);
    NoneStartWithConcat(discount, rest, 'O');
    discount + rest
  }

  const ExpiryLabel: string := "Organization subscription expires: "

  /** The first line: the kind of request. */
  function TypeLine(r: Request): (line: string)
    ensures |line| > 0 && line[0] == 'T'
  {
    if r.isTrial then "Type: Free Trial (7 days)"
    else "Type: Paid Subscription (" + IntToString(r.months) + " month(s))"
  }

  /** The second line: the amount with thousands separators and two decimals. */
  function AmountLine(r: Request): (line: string)
    ensures |line| > 0 && line[0] == 'A'
  {
    "Amount: " + WithCommasCents(r.amount) + " TZS"
  }

  /** The closing line, for an approved paid request whose organisation has an expiry. */
  function ExpiryLines(r: Request, org: Org, fmt: int -> string): (e: seq<string>)
    ensures (r.status == Approved && r.months > 0 && org.expires.Some?) <==> |e| == 1
    ensures |e| <= 1
    ensures |e| == 1 ==> e[0] == ExpiryLabel + fmt(org.expires.value)
  {
    if r.status == Approved && r.months > 0 && org.expires.Some?
    then [ExpiryLabel + fmt(org.expires.value)] else []
  }

  /**
   * The lines of payment_summary, joined with "<br>". `methodLabel` stands for
   * get_payment_method_display and `fmt` for strftime('%Y-%m-%d %H:%M').
   */
  function SummaryLines(r: Request, org: Org, methodLabel: string -> string, fmt: int -> string): (lines: seq<string>)
    ensures |lines| >= 2 && lines[0] == TypeLine(r) && lines[1] == AmountLine(r)
  {
    [TypeLine(r), AmountLine(r)] + DetailLines(r, methodLabel) + ExpiryLines(r, org, fmt)
  }

  /** The summary of an approved paid request for an organisation with an expiry ends with that expiry. */
  lemma SummaryEndsWithExpiry(r: Request, org: Org, methodLabel: string -> string, fmt: int -> string)
    requires r.status == Approved && r.months > 0 && org.expires.Some?
    ensures var lines := SummaryLines(r, org, methodLabel, fmt);
      && lines[|lines| - 1] == ExpiryLabel + fmt(org.expires.value)
      && NoneStartWith(lines[..|lines| - 1], 'O')
  {
    var head := [TypeLine(r), AmountLine(r)];
    var d := DetailLines(r, methodLabel);
    var lines := SummaryLines(r, org, methodLabel, fmt);
    assert NoneStartWith(head, 'O');
    NoneStartWithConcat(head, d, 'O');
    assert lines == (head + d) + ExpiryLines(r, org, fmt);
    assert lines[..|lines| - 1] == head + d;
  }

  /** In every other case no line of the summary starts as the expiry line does. */
  lemma SummaryOtherwiseWithoutExpiry(r: Request, org: Org, methodLabel: string -> string, fmt: int -> string)
    requires !(r.status == Approved && r.months > 0 && org.expires.Some?)
    ensures NoneStartWith(SummaryLines(r, org, methodLabel, fmt), ExpiryLabel[0])
  {
    var head := [TypeLine(r), AmountLine(r)];
    var d := DetailLines(r, methodLabel);
    assert NoneStartWith(head, 'O');
    NoneStartWithConcat(head, d, 'O');
    assert SummaryLines(r, org, methodLabel, fmt) == head + d + [];
  }

  /** A discount line, third, appears exactly when the discount is positive. */
  lemma SummaryShowsDiscount(r: Request, org: Org, methodLabel: string -> string, fmt: int -> string)
    ensures var lines := SummaryLines(r, org, methodLabel, fmt);
      r.discountPercent > 0 <==> |lines| >= 3 && lines[2][0] == 'D'
  {
    var d := DetailLines(r, methodLabel);
    var lines := SummaryLines(r, org, methodLabel, fmt);
    assert lines == [TypeLine(r), AmountLine(r)] + d + ExpiryLines(r, org, fmt);
    if |d| > 0 {
      assert lines[2] == d[0];
    } else if |lines| >= 3 {
      assert lines[2] == ExpiryLines(r, org, fmt)[0];
    }
  }

  function PaymentSummary(r: Request, org: Org, methodLabel: string -> string, fmt: int -> string): string {
    Join(SummaryLines(r, org, methodLabel, fmt), "<br>")
  }

  // ---------------------------------------------------------------------
  // subscription_info
  // ---------------------------------------------------------------------

  /** One line of the subscription information panel. */
  datatype InfoLine =
    | CurrentStatus(status: SubStatus)
    | ActiveUntil(expires: int, daysLeft: int)
    | SubscriptionExpired(expires: int)
    | MissingExpiryWarning
    | EstimatedExpiry(at: int)
    | TrialStartedAt(start: int)
    | TrialEnds(end: int, daysLeft: int)
    | TrialEnded(end: int)
    | TrialConverted(start: int)
    | PendingRequests(n: nat)
    | ApprovedRequests(n: nat)

  /** The last approved paid request of the organisation: when it was created and for how many months. */
  datatype LastApproved = LastApproved(createdAt: int, months: int)

  function SubscriptionInfo(o: Org, now: int, last: Option<LastApproved>, pending: nat, approved: nat): (lines: seq<InfoLine>)
    ensures |lines| >= 1 && lines[0] == CurrentStatus(o.status)
    ensures MissingExpiryWarning in lines <==> o.status == Subscribed && o.expires.None?
  {
    var sub :=
      if o.status != Subscribed then []
      else if o.expires.Some? then
        if o.expires.value > now then [ActiveUntil(o.expires.value, (o.expires.value - now) / DaySeconds)]
        else [SubscriptionExpired(o.expires.value)]
      else
        [MissingExpiryWarning] +
        (if last.Some? && last.value.createdAt + Days(DaysPerMonth * last.value.months) > now
         then [EstimatedExpiry(last.value.createdAt + Days(DaysPerMonth * last.value.months))] else []);
    var trial :=
      if o.trialStart.None? then []
      else
        var end := TrialEnd(o.trialStart.value);
        if o.status == FreeTrial then
          if end > now then [TrialStartedAt(o.trialStart.value), TrialEnds(end, (end - now) / DaySeconds)]
          else [TrialEnded(end)]
        else if o.status == Subscribed then [TrialConverted(o.trialStart.value)]
        else [];
    var counts := (if pending > 0 then [PendingRequests(pending)] else [])
                  + (if approved > 0 then [ApprovedRequests(approved)] else []);
    var lines := [CurrentStatus(o.status)] + sub + trial + counts;
    assert MissingExpiryWarning !in trial && MissingExpiryWarning !in counts;
    lines
  }

  /** An estimate is shown only beside the warning, and only when it lies in the future. */
  lemma EstimateOnlyWithWarning(o: Org, now: int, last: Option<LastApproved>, pending: nat, approved: nat)
    ensures forall t :: EstimatedExpiry(t) in SubscriptionInfo(o, now, last, pending, approved) ==>
      MissingExpiryWarning in SubscriptionInfo(o, now, last, pending, approved) && t > now
  {
  }
}
