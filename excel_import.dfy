/**
 * The spreadsheet import: one pass over the data rows that creates members,
 * updates them by name, or records an error per row, followed by the notices
 * summarising the pass. Money is integer cents; a cell is None when empty,
 * otherwise the text str() gives for it.
 */
module ExcelImport {
  import opened Wrappers
  import opened Text
  import opened Messages

  /**
   * A non-empty cell: text, or a value of another type (a number, a date, a
   * boolean) with the text str() gives for it and whether Python counts it
   * false (a numeric zero, False).
   */
  datatype Cell = TextCell(text: string) | ValueCell(text: string, falsy: bool)

  /**
   * A data row as openpyxl yields it: one cell per column of the sheet, so
   * always at least one, and fewer than six when the sheet is narrower.
   */
  type SheetRow = r: seq<Option<Cell>> | |r| >= 1 witness [None]

  /** A member as the import stores it; empty optional fields are None. */
  datatype Record = Record(
    pledge: int, phone: Option<string>, email: Option<string>,
    course: Option<string>, year: Option<string>, paidTotal: int)

  /** The members by name, the two counters and the errors collected so far. */
  datatype ImportState = ImportState(db: map<string, Record>, created: nat, updated: nat, errors: seq<string>)

  /** A cell Python treats as true: present, and neither empty text nor a zero value. */
  predicate Truthy(cell: Option<Cell>)
  {
    match cell
    case None => false
    case Some(TextCell(t)) => t != ""
    case Some(ValueCell(_, falsy)) => !falsy
  }

  /** The member name a named row stands for: its first cell's text, stripped. */
  function RowName(row: SheetRow): string
    requires row[0].Some?
  {
    Strip(row[0].value.text)
  }

  /** An optional text column: the stripped text, or None when the cell is empty or blank. */
  function OptionalField(cell: Option<Cell>): (r: Option<string>)
    ensures r.Some? ==> Truthy(cell) && r.value == Strip(cell.value.text) && r.value != ""
    ensures Truthy(cell) && Strip(cell.value.text) != "" ==> r.Some?
  {
    if Truthy(cell) then
      var s := Strip(cell.value.text);
      if s == "" then None else Some(s)
    else None
  }

  /** How a row's pledge reads: an amount, a cell that is not a number, or no pledge at all. */
  datatype PledgeRead = PledgeAmount(cents: int) | PledgeUnreadable | PledgeMissing

  /** The pledge cell when Python counts it true, otherwise the form's default (which may be empty). */
  function RowPledge(cell: Option<Cell>, defaultPledge: Option<int>): (p: PledgeRead)
    ensures Truthy(cell) ==> (p.PledgeUnreadable? <==> ParseCents(cell.value.text).None?)
    ensures Truthy(cell) && p.PledgeAmount? ==> Some(p.cents) == ParseCents(cell.value.text)
    ensures p.PledgeMissing? <==> !Truthy(cell) && defaultPledge.None?
    ensures !Truthy(cell) && defaultPledge.Some? ==> p == PledgeAmount(defaultPledge.value)
  {
    if Truthy(cell) then
      match ParseCents(cell.value.text)
      case None => PledgeUnreadable
      case Some(c) => PledgeAmount(c)
    else if defaultPledge.None? then PledgeMissing
    else PledgeAmount(defaultPledge.value)
  }

  /** Decimal's complaint about text that is not a number. */
  const ConversionSyntax: string := "[<class 'decimal.ConversionSyntax'>]"

  /** The database's complaint about a member saved with no pledge. */
  const NullPledge: string := "NOT NULL constraint failed: tracker_member.pledge"

  /** Python's complaint about reading a cell past the end of a row. */
  const IndexOutOfRange: string := "tuple index out of range"

  function RowError(rawName: string, reason: string): string
  {
    "Error processing row with name '" + rawName + "': " + reason
  }

  function ExistsError(name: string): string
  {
    "Member '" + name + "' already exists"
  }

  /** The record a six-column row describes, keeping the given paid total. */
  function RowRecord(row: SheetRow, pledge: int, paidTotal: int): Record
    requires |row| >= 6
  {
    Record(pledge, OptionalField(row[2]), OptionalField(row[3]),
           OptionalField(row[4]), OptionalField(row[5]), paidTotal)
  }

  /** A full row with a readable or missing pledge when existing members are updated. */
  function UpsertRow(st: ImportState, row: SheetRow, p: PledgeRead): (r: ImportState)
    requires Truthy(row[0]) && |row| >= 6 && !p.PledgeUnreadable?
    ensures st.db.Keys <= r.db.Keys
  {
    var name := RowName(row);
    if p.PledgeMissing? then st.(errors := st.errors + [RowError(row[0].value.text, NullPledge)])
    else if name in st.db then
      st.(db := st.db[name := RowRecord(row, p.cents, st.db[name].paidTotal)], updated := st.updated + 1)
    else
      st.(db := st.db[name := RowRecord(row, p.cents, 0)], created := st.created + 1)
  }

  /** A full row with a readable or missing pledge when only new members are created. */
  function CreateRow(st: ImportState, row: SheetRow, p: PledgeRead): (r: ImportState)
    requires Truthy(row[0]) && |row| >= 6 && !p.PledgeUnreadable?
    ensures st.db.Keys <= r.db.Keys && r.updated == st.updated
    ensures forall n :: n in st.db ==> r.db[n] == st.db[n]
  {
    var name := RowName(row);
    if name in st.db then st.(errors := st.errors + [ExistsError(name)])
    else if p.PledgeMissing? then st.(errors := st.errors + [RowError(row[0].value.text, NullPledge)])
    else st.(db := st.db[name := RowRecord(row, p.cents, 0)], created := st.created + 1)
  }

  /**
   * One row of the pass. A row whose name cell is false is skipped. Reading
   * the pledge cell of a one-column row fails, then an unreadable pledge
   * fails, then reading the other four cells of a row narrower than six
   * columns fails. With updateExisting the member with the stripped name is
   * updated (its paid total kept) or created; otherwise an existing name is
   * an error and a new one is created. Saving a member with no pledge fails.
   */
  function ImportRow(st: ImportState, row: SheetRow, updateExisting: bool, defaultPledge: Option<int>): (r: ImportState)
    ensures st.db.Keys <= r.db.Keys
    ensures !updateExisting ==> r.updated == st.updated && forall n :: n in st.db ==> r.db[n] == st.db[n]
    ensures !Truthy(row[0]) ==> r == st
    ensures r.created + r.updated + |r.errors| == st.created + st.updated + |st.errors| + (if Truthy(row[0]) then 1 else 0)
  {
    if !Truthy(row[0]) then st
    else if |row| < 2 then st.(errors := st.errors + [RowError(row[0].value.text, IndexOutOfRange)])
    else
      var p := RowPledge(row[1], defaultPledge);
      if p.PledgeUnreadable? then st.(errors := st.errors + [RowError(row[0].value.text, ConversionSyntax)])
      else if |row| < 6 then st.(errors := st.errors + [RowError(row[0].value.text, IndexOutOfRange)])
      else if updateExisting then UpsertRow(st, row, p)
      else CreateRow(st, row, p)
  }

  /**
   * A cell holding a numeric zero counts as empty: a zero pledge takes the
   * default like an empty pledge cell, and a row whose name is zero is skipped.
   */
  lemma ZeroCellsCountAsEmpty(st: ImportState, row: SheetRow, updateExisting: bool, defaultPledge: Option<int>)
    ensures |row| >= 2 && row[1].Some? && row[1].value.ValueCell? && row[1].value.falsy ==>
      RowPledge(row[1], defaultPledge) == RowPledge(None, defaultPledge)
    ensures row[0].Some? && row[0].value.ValueCell? && row[0].value.falsy ==>
      ImportRow(st, row, updateExisting, defaultPledge) == st
  {
  }

  /**
   * Create-only mode on a full row whose pledge reads: a stored name is
   * refused with "already exists"; a new one is created with the row's
   * fields and nothing paid, or fails to save when there is no pledge.
   */
  lemma CreateModeRow(st: ImportState, row: SheetRow, defaultPledge: Option<int>)
    requires Truthy(row[0]) && |row| >= 6 && !RowPledge(row[1], defaultPledge).PledgeUnreadable?
    ensures var name := RowName(row);
      var p := RowPledge(row[1], defaultPledge);
      var r := ImportRow(st, row, false, defaultPledge);
      && (name in st.db ==> r == st.(errors := st.errors + [ExistsError(name)]))
      && (name !in st.db && p.PledgeAmount? ==>
            r == st.(db := st.db[name := RowRecord(row, p.cents, 0)], created := st.created + 1))
      && (name !in st.db && p.PledgeMissing? ==>
            r == st.(errors := st.errors + [RowError(row[0].value.text, NullPledge)]))
  {
    var p := RowPledge(row[1], defaultPledge);
    assert ImportRow(st, row, false, defaultPledge) == CreateRow(st, row, p);
  }

  /**
   * Update mode on a full row whose pledge reads as `c`: the member under the
   * stripped name becomes the row's record, keeping the stored paid total (0
   * when new); no other member changes, no error is added, and exactly one
   * of the counters grows, `updated` iff the name was stored.
   */
  lemma UpsertModeRow(st: ImportState, row: SheetRow, defaultPledge: Option<int>, c: int)
    requires Truthy(row[0]) && |row| >= 6 && RowPledge(row[1], defaultPledge) == PledgeAmount(c)
    ensures var name := RowName(row);
      var r := ImportRow(st, row, true, defaultPledge);
      && r.db == st.db[name := RowRecord(row, c, if name in st.db then st.db[name].paidTotal else 0)]
      && r.errors == st.errors
      && r.created + r.updated == st.created + st.updated + 1
      && (r.updated == st.updated + 1 <==> name in st.db)
  {
    assert ImportRow(st, row, true, defaultPledge) == UpsertRow(st, row, PledgeAmount(c));
  }

  /** The state after the first |rows| rows. */
  function ImportAll(rows: seq<SheetRow>, start: ImportState, updateExisting: bool, defaultPledge: Option<int>): ImportState
  {
    if rows == [] then start
    else ImportRow(ImportAll(rows[..|rows| - 1], start, updateExisting, defaultPledge), rows[|rows| - 1], updateExisting, defaultPledge)
  }

  /** The pass itself, starting from the members already stored. */
  method ImportRows(rows: seq<SheetRow>, db: map<string, Record>, updateExisting: bool, defaultPledge: Option<int>)
    returns (st: ImportState)
    ensures st == ImportAll(rows, ImportState(db, 0, 0, []), updateExisting, defaultPledge)
  {
    st := ImportState(db, 0, 0, []);
    for i := 0 to |rows|
      invariant st == ImportAll(rows[..i], ImportState(db, 0, 0, []), updateExisting, defaultPledge)
    {
      var row := rows[i];
      ghost var before := st;
      assert rows[..i + 1][..i] == rows[..i];
      assert ImportAll(rows[..i + 1], ImportState(db, 0, 0, []), updateExisting, defaultPledge)
          == ImportRow(before, row, updateExisting, defaultPledge);
      if Truthy(row[0]) {
        var raw := row[0].value.text;
        if |row| < 2 {
          st := st.(errors := st.errors + [RowError(raw, IndexOutOfRange)]);
        } else {
          var pledge := RowPledge(row[1], defaultPledge);
          if pledge.PledgeUnreadable? {
            st := st.(errors := st.errors + [RowError(raw, ConversionSyntax)]);
          } else if |row| < 6 {
            st := st.(errors := st.errors + [RowError(raw, IndexOutOfRange)]);
          } else {
            var name := Strip(raw);
            if updateExisting {
              if pledge.PledgeMissing? {
                st := st.(errors := st.errors + [RowError(raw, NullPledge)]);
              } else if name in st.db {
                st := st.(db := st.db[name := RowRecord(row, pledge.cents, st.db[name].paidTotal)], updated := st.updated + 1);
              } else {
                st := st.(db := st.db[name := RowRecord(row, pledge.cents, 0)], created := st.created + 1);
              }
              assert st == UpsertRow(before, row, pledge);
            } else {
              if name in st.db {
                st := st.(errors := st.errors + [ExistsError(name)]);
              } else if pledge.PledgeMissing? {
                st := st.(errors := st.errors + [RowError(raw, NullPledge)]);
              } else {
                st := st.(db := st.db[name := RowRecord(row, pledge.cents, 0)], created := st.created + 1);
              }
              assert st == CreateRow(before, row, pledge);
            }
          }
        }
      }
      assert st == ImportRow(before, row, updateExisting, defaultPledge);
    }
    assert rows[..|rows|] == rows;
  }

  /** The rows whose name cell is false. */
  function Skipped(rows: seq<SheetRow>): (n: nat)
    ensures n <= |rows|
  {
    if rows == [] then 0
    else Skipped(rows[..|rows| - 1]) + (if Truthy(rows[|rows| - 1][0]) then 0 else 1)
  }

  /** Every row with a name is counted exactly once: created, updated, or an error. */
  lemma {:induction false} EveryRowAccountedFor(rows: seq<SheetRow>, db: map<string, Record>, updateExisting: bool, defaultPledge: Option<int>)
    ensures var st := ImportAll(rows, ImportState(db, 0, 0, []), updateExisting, defaultPledge);
      st.created + st.updated + |st.errors| + Skipped(rows) == |rows|
  {
    if rows != [] {
      EveryRowAccountedFor(rows[..|rows| - 1], db, updateExisting, defaultPledge);
    }
  }

  /** Without updateExisting no stored member changes; the import only adds. */
  lemma {:induction false} CreateOnlyKeepsExisting(rows: seq<SheetRow>, start: ImportState, defaultPledge: Option<int>)
    ensures var st := ImportAll(rows, start, false, defaultPledge);
      forall n :: n in start.db ==> n in st.db && st.db[n] == start.db[n]
    ensures ImportAll(rows, start, false, defaultPledge).updated == start.updated
  {
    if rows != [] {
      CreateOnlyKeepsExisting(rows[..|rows| - 1], start, defaultPledge);
    }
  }

  /**
   * On a sheet narrower than six columns every named row fails with an
   * index error and no member is created or changed.
   */
  lemma {:induction false} NarrowSheetFailsEveryNamedRow(rows: seq<SheetRow>, start: ImportState, updateExisting: bool, defaultPledge: Option<int>)
    requires forall i :: 0 <= i < |rows| ==> |rows[i]| < 6
    ensures var st := ImportAll(rows, start, updateExisting, defaultPledge);
      && st.db == start.db && st.created == start.created && st.updated == start.updated
      && |st.errors| == |start.errors| + |rows| - Skipped(rows)
  {
    if rows != [] {
      NarrowSheetFailsEveryNamedRow(rows[..|rows| - 1], start, updateExisting, defaultPledge);
    }
  }

  /** Every row has all six columns, and a pledge this pass reads as an amount. */
  predicate PledgesReadable(rows: seq<SheetRow>, defaultPledge: Option<int>)
  {
    forall i :: 0 <= i < |rows| ==> |rows[i]| >= 6 && RowPledge(rows[i][1], defaultPledge).PledgeAmount?
  }

  /**
   * With updateExisting, six columns and readable pledges there are no
   * errors, and every named row leaves a member under its stripped name.
   */
  lemma {:induction false} UpsertModeHasNoErrors(rows: seq<SheetRow>, start: ImportState, defaultPledge: Option<int>)
    requires PledgesReadable(rows, defaultPledge)
    ensures var st := ImportAll(rows, start, true, defaultPledge);
      st.errors == start.errors
      && (forall i :: 0 <= i < |rows| && Truthy(rows[i][0]) ==> RowName(rows[i]) in st.db)
  {
    if rows != [] {
      var init := rows[..|rows| - 1];
      PledgesReadableInit(rows, defaultPledge);
      UpsertModeHasNoErrors(init, start, defaultPledge);
      var before := ImportAll(init, start, true, defaultPledge);
      var last := rows[|rows| - 1];
      var after := ImportRow(before, last, true, defaultPledge);
      assert ImportAll(rows, start, true, defaultPledge) == after;
      if Truthy(last[0]) {
        UpsertModeRow(before, last, defaultPledge, RowPledge(last[1], defaultPledge).cents);
      }
      assert after.errors == before.errors;
      forall i | 0 <= i < |rows| && Truthy(rows[i][0]) ensures RowName(rows[i]) in after.db {
        if i < |rows| - 1 {
          assert rows[i] == init[i];
        }
      }
    }
  }

  /** Dropping the last row keeps the rows complete and their pledges readable. */
  lemma PledgesReadableInit(rows: seq<SheetRow>, defaultPledge: Option<int>)
    requires rows != [] && PledgesReadable(rows, defaultPledge)
    ensures PledgesReadable(rows[..|rows| - 1], defaultPledge)
  {
    var init := rows[..|rows| - 1];
    forall k | 0 <= k < |init| ensures |init[k]| >= 6 && RowPledge(init[k][1], defaultPledge).PledgeAmount? {
      assert init[k] == rows[k];
    }
  }

  /**
   * In update mode, with six columns and readable pledges, the last row
   * naming a member decides that member's fields: its record is that row's,
   * whatever paid total it carries.
   */
  lemma {:induction false} LastRowWins(rows: seq<SheetRow>, start: ImportState, defaultPledge: Option<int>, i: nat)
    requires PledgesReadable(rows, defaultPledge)
    requires i < |rows| && Truthy(rows[i][0])
    requires forall j :: i < j < |rows| && Truthy(rows[j][0]) ==> RowName(rows[j]) != RowName(rows[i])
    ensures var st := ImportAll(rows, start, true, defaultPledge);
      var name := RowName(rows[i]);
      name in st.db
      && st.db[name].(paidTotal := 0) == RowRecord(rows[i], RowPledge(rows[i][1], defaultPledge).cents, 0)
  {
    var init := rows[..|rows| - 1];
    var before := ImportAll(init, start, true, defaultPledge);
    var last := rows[|rows| - 1];
    assert ImportAll(rows, start, true, defaultPledge) == ImportRow(before, last, true, defaultPledge);
    assert |last| >= 6 && RowPledge(last[1], defaultPledge).PledgeAmount?;
    if i == |rows| - 1 {
      UpsertModeRow(before, last, defaultPledge, RowPledge(last[1], defaultPledge).cents);
    } else {
      PledgesReadableInit(rows, defaultPledge);
      assert init[i] == rows[i];
      forall j | i < j < |init| && Truthy(init[j][0]) ensures RowName(init[j]) != RowName(init[i]) {
        assert init[j] == rows[j];
      }
      LastRowWins(init, start, defaultPledge, i);
      UpsertKeepsOthers(before, last, defaultPledge, RowName(rows[i]));
    }
  }

  /** In update mode a full row with a readable pledge leaves every member it does not name as it was. */
  lemma UpsertKeepsOthers(st: ImportState, row: SheetRow, defaultPledge: Option<int>, name: string)
    requires |row| >= 6 && RowPledge(row[1], defaultPledge).PledgeAmount?
    requires name in st.db
    requires Truthy(row[0]) ==> RowName(row) != name
    ensures var r := ImportRow(st, row, true, defaultPledge);
      name in r.db && r.db[name] == st.db[name]
  {
    if Truthy(row[0]) {
      UpsertModeRow(st, row, defaultPledge, RowPledge(row[1], defaultPledge).cents);
    }
  }

  const MaxShownErrors: nat := 5

  /** The notices after the pass: created, updated, then at most five errors and a count of the rest. */
  function ImportMessages(created: nat, updated: nat, errors: seq<string>): (ms: seq<Message>)
    ensures var k := (if created > 0 then 1 else 0) + (if updated > 0 then 1 else 0);
      && |ms| == k + (if |errors| <= MaxShownErrors then |errors| else MaxShownErrors + 1)
      && ms[k..] == ErrorMessages(errors)
    ensures created > 0 ==> ms[0] == Message(Success, "Successfully created " + NatToString(created) + " new members!")
    ensures updated > 0 ==>
      ms[if created > 0 then 1 else 0] == Message(Info, "Updated " + NatToString(updated) + " existing members!")
  {
    (if created > 0 then [Message(Success, "Successfully created " + NatToString(created) + " new members!")] else [])
    + (if updated > 0 then [Message(Info, "Updated " + NatToString(updated) + " existing members!")] else [])
    + ErrorMessages(errors)
  }

  /** The error notices: the first five errors as warnings, then how many more there were. */
  function ErrorMessages(errors: seq<string>): (ms: seq<Message>)
    ensures |errors| <= MaxShownErrors ==> |ms| == |errors|
    ensures |errors| > MaxShownErrors ==>
      && |ms| == MaxShownErrors + 1
      && ms[MaxShownErrors] == Message(Warning, "... and " + NatToString(|errors| - MaxShownErrors) + " more errors")
    ensures forall i :: 0 <= i < |ms| && i < |errors| && i < MaxShownErrors ==> ms[i] == Message(Warning, errors[i])
    ensures forall i :: 0 <= i < |ms| ==> ms[i].level == Warning
  {
    var shown := if |errors| <= MaxShownErrors then errors else errors[..MaxShownErrors];
    var head := seq(|shown|, i requires 0 <= i < |shown| => Message(Warning, shown[i]));
    if |errors| > MaxShownErrors
    then head + [Message(Warning, "... and " + NatToString(|errors| - MaxShownErrors) + " more errors")]
    else head
  }
}
