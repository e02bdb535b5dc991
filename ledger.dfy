/**
 * The pledge ledger: a member's pledge, the payments recorded against it and
 * the cached `paid_total`, which every save or delete of a payment recomputes
 * as the sum of the member's payments. Money is integer cents.
 */
module Ledger {
  /** The pledge a new member starts with: 70,000.00. */
  const DefaultPledge: int := 7000000

  /** The member fields the derived properties read. */
  datatype Member = Member(name: string, pledge: int, paidTotal: int)

  /** One recorded payment. */
  datatype Transaction = Transaction(id: int, amount: int)

  /** What is still owed; negative once the pledge is exceeded. */
  function Remaining(m: Member): (r: int)
    ensures r > 0 <==> m.paidTotal < m.pledge
    ensures r == 0 <==> m.paidTotal == m.pledge
    ensures m.paidTotal + r == m.pledge
  {
    m.pledge - m.paidTotal
  }

  predicate IsComplete(m: Member) { m.paidTotal >= m.pledge }

  predicate IsIncomplete(m: Member) { 0 < m.paidTotal < m.pledge }

  predicate NotStarted(m: Member) { m.paidTotal == 0 }

  predicate HasExceeded(m: Member) { m.paidTotal > m.pledge }

  /** The validators on the stored fields: pledge at least 0.01, paid total at least 0.00. */
  predicate FieldsValid(m: Member) { m.pledge >= 1 && m.paidTotal >= 0 }

  /** The first of Exceeded, Complete, Incomplete that holds; otherwise Not Started. */
  function StatusDisplay(m: Member): (r: string)
    ensures r == "Exceeded" <==> HasExceeded(m)
    ensures r == "Complete" <==> IsComplete(m) && !HasExceeded(m)
    ensures r == "Incomplete" <==> IsIncomplete(m) && !IsComplete(m)
    ensures r == "Not Started" <==> !IsComplete(m) && !IsIncomplete(m)
  {
    if HasExceeded(m) then "Exceeded"
    else if IsComplete(m) then "Complete"
    else if IsIncomplete(m) then "Incomplete"
    else "Not Started"
  }

  /** Exceeding a pledge completes it, and a remaining balance means neither. */
  lemma ExceededIsComplete(m: Member)
    ensures HasExceeded(m) ==> IsComplete(m)
    ensures HasExceeded(m) <==> Remaining(m) < 0
    ensures !IsComplete(m) <==> Remaining(m) > 0
  {
  }

  /**
   * For stored values, the four labels partition the members: each one's own
   * predicate holds, and "Not Started" means nothing has been paid.
   */
  lemma StatusPartition(m: Member)
    requires FieldsValid(m)
    ensures StatusDisplay(m) == "Not Started" <==> NotStarted(m)
    ensures StatusDisplay(m) == "Incomplete" <==> IsIncomplete(m)
    ensures StatusDisplay(m) == "Complete" <==> m.paidTotal == m.pledge
    ensures NotStarted(m) ==> !IsComplete(m) && !IsIncomplete(m)
  {
  }

  /** The sum of the amounts; 0 for no payments. */
  function Sum(ts: seq<Transaction>): int
  {
    if ts == [] then 0 else ts[0].amount + Sum(ts[1..])
  }

  /** Every amount meets its validator: at least 0.01. */
  predicate AmountsValid(ts: seq<Transaction>)
  {
    forall i :: 0 <= i < |ts| ==> ts[i].amount >= 1
  }

  /** With valid amounts the sum is at least one cent per payment, so it is 0 exactly when there are none. */
  lemma {:induction false} SumOfValidAmounts(ts: seq<Transaction>)
    requires AmountsValid(ts)
    ensures Sum(ts) >= |ts|
    ensures Sum(ts) == 0 <==> ts == []
  {
    if ts != [] {
      assert AmountsValid(ts[1..]) by {
        forall i | 0 <= i < |ts[1..]| ensures ts[1..][i].amount >= 1 {
          assert ts[1..][i] == ts[i + 1];
        }
      }
      SumOfValidAmounts(ts[1..]);
    }
  }

  function Ids(ts: seq<Transaction>): set<int>
  {
    if ts == [] then {} else {ts[0].id} + Ids(ts[1..])
  }

  /** Each payment id appears once, as primary keys do. */
  predicate UniqueIds(ts: seq<Transaction>)
  {
    ts == [] || (ts[0].id !in Ids(ts[1..]) && UniqueIds(ts[1..]))
  }

  /** The amount stored under `id`; 0 when there is no such payment. */
  function AmountOf(ts: seq<Transaction>, id: int): int
  {
    if ts == [] then 0
    else if ts[0].id == id then ts[0].amount
    else AmountOf(ts[1..], id)
  }

  /** An id with no payment has nothing stored under it. */
  lemma {:induction false} AmountOfAbsent(ts: seq<Transaction>, id: int)
    requires id !in Ids(ts)
    ensures AmountOf(ts, id) == 0
  {
    if ts != [] {
      AmountOfAbsent(ts[1..], id);
    }
  }

  /** Saving a payment: the row with its id is overwritten in place, or a new row is added. */
  function Upsert(ts: seq<Transaction>, t: Transaction): (r: seq<Transaction>)
  {
    if ts == [] then [t]
    else if ts[0].id == t.id then [t] + ts[1..]
    else [ts[0]] + Upsert(ts[1..], t)
  }

  /** Deleting the payment with `id`; nothing changes when there is none. */
  function Remove(ts: seq<Transaction>, id: int): (r: seq<Transaction>)
  {
    if ts == [] then []
    else if ts[0].id == id then ts[1..]
    else [ts[0]] + Remove(ts[1..], id)
  }

  /** Saving replaces the old amount under the id (0 when new) by the new one. */
  lemma {:induction false} SumUpsert(ts: seq<Transaction>, t: Transaction)
    ensures Sum(Upsert(ts, t)) == Sum(ts) - AmountOf(ts, t.id) + t.amount
    ensures Ids(Upsert(ts, t)) == Ids(ts) + {t.id}
    ensures t.id in Ids(ts) ==> |Upsert(ts, t)| == |ts|
    ensures t.id !in Ids(ts) ==> Upsert(ts, t) == ts + [t]
    ensures UniqueIds(ts) ==> UniqueIds(Upsert(ts, t))
  {
    if ts != [] && ts[0].id != t.id {
      SumUpsert(ts[1..], t);
      var r := Upsert(ts, t);
      assert r[0] == ts[0] && r[1..] == Upsert(ts[1..], t);
      if t.id !in Ids(ts) {
        assert ts == [ts[0]] + ts[1..];
      }
    } else if ts != [] {
      var r := Upsert(ts, t);
      assert r[0] == t && r[1..] == ts[1..];
    }
  }

  /** Deleting takes the amount under the id off the sum and the id out of the set. */
  lemma {:induction false} SumRemove(ts: seq<Transaction>, id: int)
    ensures Sum(Remove(ts, id)) == Sum(ts) - AmountOf(ts, id)
    ensures UniqueIds(ts) ==> Ids(Remove(ts, id)) == Ids(ts) - {id} && UniqueIds(Remove(ts, id))
    ensures id !in Ids(ts) ==> Remove(ts, id) == ts
  {
    if ts != [] && ts[0].id != id {
      SumRemove(ts[1..], id);
      var r := Remove(ts, id);
      assert r[0] == ts[0] && r[1..] == Remove(ts[1..], id);
      if id !in Ids(ts) {
        assert ts == [ts[0]] + ts[1..];
      }
    }
  }

  /** A member row together with its payments. */
  class MemberAccount {
    var name: string
    var pledge: int
    var paidTotal: int
    var transactions: seq<Transaction>

    /** The member's cached total agrees with its payments, whose ids are distinct. */
    ghost predicate Valid()
      reads this
    {
      UniqueIds(transactions) && paidTotal == Sum(transactions)
    }

    function Snapshot(): (m: Member)
      reads this
      ensures m.pledge == pledge && m.paidTotal == paidTotal
    {
      Member(name, pledge, paidTotal)
    }

    /** A new member with no payments and a zero paid total. */
    constructor (name: string, pledge: int)
      ensures this.name == name && this.pledge == pledge
      ensures paidTotal == 0 && transactions == []
      ensures Valid()
    {
      this.name := name;
      this.pledge := pledge;
      paidTotal := 0;
      transactions := [];
    }

    /** Recomputes the cached total from the payments. */
    method UpdatePaidTotal()
      modifies this
      ensures paidTotal == Sum(transactions)
      ensures transactions == old(transactions) && name == old(name) && pledge == old(pledge)
      ensures UniqueIds(transactions) ==> Valid()
    {
      paidTotal := Sum(transactions);
    }

    /** Stores a payment, then recomputes the total. */
    method SaveTransaction(t: Transaction)
      modifies this
      ensures transactions == Upsert(old(transactions), t)
      ensures paidTotal == old(Sum(transactions)) - AmountOf(old(transactions), t.id) + t.amount
      ensures name == old(name) && pledge == old(pledge)
      ensures old(UniqueIds(transactions)) ==> Valid()
    {
      SumUpsert(transactions, t);
      transactions := Upsert(transactions, t);
      UpdatePaidTotal();
    }

    /** Deletes a payment, then recomputes the total. */
    method DeleteTransaction(id: int)
      modifies this
      ensures transactions == Remove(old(transactions), id)
      ensures paidTotal == old(Sum(transactions)) - AmountOf(old(transactions), id)
      ensures name == old(name) && pledge == old(pledge)
      ensures old(UniqueIds(transactions)) ==> Valid()
    {
      SumRemove(transactions, id);
      transactions := Remove(transactions, id);
      UpdatePaidTotal();
    }
  }
}
