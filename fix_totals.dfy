/**
 * The repair command that recomputes every member's paid total from its
 * payments, with a dry-run mode that only counts what it would change.
 */
module FixTotals {
  import opened Wrappers

  /**
   * One member as the command sees it: the stored paid total (None when the
   * column is null), the amounts of its payments, whether reading its
   * payments raises a database error, and whether saving it would raise one.
   */
  datatype MemberRow = MemberRow(name: string, paidTotal: Option<int>, amounts: seq<int>, readFails: bool, saveFails: bool)

  datatype Verdict = Fixed | Correct | Error

  /** The aggregate sum of the payments; 0 when there are none. */
  function TransactionTotal(amounts: seq<int>): int
  {
    if amounts == [] then 0 else amounts[0] + TransactionTotal(amounts[1..])
  }

  /** The stored total with a null read as 0. */
  function CurrentPaid(m: MemberRow): int
  {
    m.paidTotal.GetOr(0)
  }

  /** A member whose total already agrees with its payments. */
  predicate Agrees(m: MemberRow)
  {
    CurrentPaid(m) == TransactionTotal(m.amounts)
  }

  /**
   * How the command classifies one member. A failing read is an error in
   * either mode; the save is attempted only in a real run and only for a
   * member whose total disagrees, so only then can its failure count.
   */
  function Classify(m: MemberRow, dryRun: bool): (v: Verdict)
    ensures v == Error <==> m.readFails || (!dryRun && m.saveFails && !Agrees(m))
    ensures v == Fixed <==> !m.readFails && !Agrees(m) && (dryRun || !m.saveFails)
    ensures v == Correct <==> !m.readFails && Agrees(m)
  {
    if m.readFails then Error
    else if CurrentPaid(m) != TransactionTotal(m.amounts) then
      if !dryRun && m.saveFails then Error else Fixed
    else Correct
  }

  /** A member whose save would fail counts as fixed in a dry run, as an error in a real one, and as correct when it agrees. */
  lemma SaveFailureDependsOnMode(m: MemberRow)
    requires !m.readFails && m.saveFails
    ensures Agrees(m) ==> Classify(m, true) == Correct && Classify(m, false) == Correct
    ensures !Agrees(m) ==> Classify(m, true) == Fixed && Classify(m, false) == Error
  {
  }

  /** The member after the command: only a fixed member in a real run changes, and only its total. */
  function Repair(m: MemberRow, dryRun: bool): (r: MemberRow)
    ensures r.name == m.name && r.amounts == m.amounts
    ensures r.readFails == m.readFails && r.saveFails == m.saveFails
    ensures r != m <==> !dryRun && Classify(m, dryRun) == Fixed
    ensures !dryRun && !m.readFails && !m.saveFails ==> Agrees(r)
  {
    if !dryRun && Classify(m, dryRun) == Fixed then m.(paidTotal := Some(TransactionTotal(m.amounts)))
    else m
  }

  function Count(ms: seq<MemberRow>, v: Verdict, dryRun: bool): (n: nat)
    ensures n <= |ms|
  {
    if ms == [] then 0
    else (if Classify(ms[|ms| - 1], dryRun) == v then 1 else 0) + Count(ms[..|ms| - 1], v, dryRun)
  }

  /** Every member is exactly one of fixed, correct or failed. */
  lemma {:induction false} CountsPartition(ms: seq<MemberRow>, dryRun: bool)
    ensures Count(ms, Fixed, dryRun) + Count(ms, Correct, dryRun) + Count(ms, Error, dryRun) == |ms|
  {
    if ms != [] {
      CountsPartition(ms[..|ms| - 1], dryRun);
    }
  }

  /**
   * The command's loop: every member is classified; in a real run a member
   * whose total disagrees gets the sum of its payments. The counters say how
   * many were fixed (or would be, in a dry run) and how many failed.
   */
  method Reconcile(members: array<MemberRow>, dryRun: bool) returns (fixedCount: nat, errorCount: nat)
    modifies members
    ensures forall i :: 0 <= i < members.Length ==> members[i] == Repair(old(members[i]), dryRun)
    ensures fixedCount == Count(old(members[..]), Fixed, dryRun)
    ensures errorCount == Count(old(members[..]), Error, dryRun)
  {
    ghost var before := members[..];
    fixedCount, errorCount := 0, 0;
    var i := 0;
    while i < members.Length
      invariant 0 <= i <= members.Length
      invariant forall k :: 0 <= k < i ==> members[k] == Repair(before[k], dryRun)
      invariant forall k :: i <= k < members.Length ==> members[k] == before[k]
      invariant fixedCount == Count(before[..i], Fixed, dryRun)
      invariant errorCount == Count(before[..i], Error, dryRun)
    {
      var m := members[i];
      assert before[..i + 1][..i] == before[..i];
      if m.readFails {
        errorCount := errorCount + 1;
      } else {
        var total := TransactionTotal(m.amounts);
        if CurrentPaid(m) != total {
          if dryRun {
            fixedCount := fixedCount + 1;
          } else if m.saveFails {
            errorCount := errorCount + 1;
          } else {
            members[i] := m.(paidTotal := Some(total));
            fixedCount := fixedCount + 1;
          }
        }
      }
      i := i + 1;
    }
    assert before[..members.Length] == before;
  }

  /** A dry run changes no member. */
  lemma DryRunChangesNothing(ms: seq<MemberRow>)
    ensures forall i :: 0 <= i < |ms| ==> Repair(ms[i], true) == ms[i]
  {
  }

  /** After a real run, every member processed without error has a total equal to its payments. */
  lemma RealRunRestoresTotals(ms: seq<MemberRow>)
    ensures forall i :: 0 <= i < |ms| && Classify(ms[i], false) != Error ==> Agrees(Repair(ms[i], false))
  {
  }

  /** Members whose total already matched, and members that failed, are left as they were. */
  lemma UnfixedMembersUntouched(m: MemberRow, dryRun: bool)
    requires Classify(m, dryRun) != Fixed
    ensures Repair(m, dryRun) == m
  {
  }

  /** Running the repair twice fixes nothing the second time. */
  lemma {:induction false} SecondRunFixesNothing(ms: seq<MemberRow>)
    ensures Count(seq(|ms|, i requires 0 <= i < |ms| => Repair(ms[i], false)), Fixed, false) == 0
  {
    if ms != [] {
      var init := ms[..|ms| - 1];
      var after := seq(|ms|, i requires 0 <= i < |ms| => Repair(ms[i], false));
      assert after[..|ms| - 1] == seq(|init|, i requires 0 <= i < |init| => Repair(init[i], false));
      SecondRunFixesNothing(init);
    }
  }
}
