# Pledge tracker business rules, in Dafny

This project models the business rules of a multi-tenant pledge tracker: a Django site where each organisation keeps members who pledge an amount and pay it off in transactions. It covers these parts:

- **Members and payments.** The ledger of members and their payments, and the cached paid total that every save or delete of a payment recomputes.
- **Pages and endpoints.** The dashboard's filtering, statistics and hand-written paginator; the inline editor; the two payment paths; the quick add-member check; and the spreadsheet import loop.
- **Validation.** The payment, upload and member form validators.
- **Subscriptions.** The platform administrator's bulk approval and decline of subscription payment requests, the payment summary and subscription panel, and the operator portal's approve, decline, suspend, revenue-chart, backup-download and discount actions.
- **Tenancy and roles.** Organisation roles and the decorators built on them, the template context's permission flags and branding, and the middleware that resolves the tenant from the URL.
- **Display.** The template filters that format amounts.
- **Repair.** The management command that repairs paid totals.

Conventions:

- Money is integer cents, and the default pledge of 70,000.00 is `7000000`.
- Instants are integer seconds, and a day is 86,400 of them. Calendar dates are proleptic Gregorian.
- Python's `None` is `Option.None`.
- Text is `seq<char>`.
- Database lookups become maps keyed by primary key (or by slug, or by name, where the code looks up by those).
- The clock is a parameter (`now`, `today`).

Each place where the code reads state and then writes it is modelled in its own form:

- A member and its payments is a class (`Ledger.MemberAccount`).
- The portal's request and organisation tables form a class (`Portal.PortalStore`).
- The middleware's request is a class (`Middleware.TenantRequest`).
- The management command updates an array of member rows in place.
- Loops that build lists or counters are methods whose loop invariants tie them to a specification function, and lemmas state the properties of that function.

## Model

| member | source | states |
|---|---|---|
| Ledger.Remaining | tracker/models.py:39-41 | `remaining` is pledge minus paid total: positive exactly while the pledge is unpaid, zero exactly when paid in full |
| Ledger.StatusDisplay | tracker/models.py:59-68 | the label is "Exceeded" iff paid > pledge, "Complete" iff paid ≥ pledge but not exceeded, "Incomplete" iff 0 < paid < pledge, otherwise "Not Started" |
| Ledger.ExceededIsComplete | tracker/models.py:39-57 | exceeding implies complete; exceeded iff remaining < 0; not complete iff remaining > 0 |
| Ledger.StatusPartition | tracker/models.py:43-68 | under the field validators (pledge ≥ 0.01, paid ≥ 0), "Not Started" iff nothing paid, "Incomplete" iff `is_incomplete`, and "Complete" iff paid exactly equals the pledge |
| Ledger.SumOfValidAmounts | tracker/models.py:80-84 | with every amount at least 0.01, the sum is at least one cent per payment and is 0 exactly when there are none |
| Ledger.SumUpsert | tracker/models.py:97-100 | saving a payment replaces the amount stored under its id (0 when new) in the sum, appends a new payment at the end, and keeps ids unique |
| Ledger.SumRemove | tracker/models.py:102-105 | deleting a payment takes its amount off the sum and its id out of the id set; deleting an absent id changes nothing |
| Ledger.MemberAccount.constructor | tracker/models.py:16-21 | a new member has no payments and a zero paid total, so its cache is consistent |
| Ledger.MemberAccount.UpdatePaidTotal | tracker/models.py:70-75 | the paid total becomes the sum of the member's payments; nothing else changes |
| Ledger.MemberAccount.SaveTransaction | tracker/models.py:97-100 | the payment is stored (overwriting the row with its id) and the paid total is recomputed to the new sum; a consistent member stays consistent |
| Ledger.MemberAccount.DeleteTransaction | tracker/models.py:102-105 | the payment is removed and the paid total drops by its amount; a consistent member stays consistent |
| FixTotals.Classify | tracker/management/commands/fix_member_totals.py:34-66 | a member is an error iff reading its payments raises, or the run is real, its totals disagree and its save raises; fixed iff it is readable, its stored total (null as 0) differs from its payment sum (empty as 0) and the run is dry or the save succeeds; correct iff readable and agreeing |
| FixTotals.SaveFailureDependsOnMode | tracker/management/commands/fix_member_totals.py:44-56 | a member whose save would raise is fixed in a dry run and an error in a real run when its totals disagree, and correct in both when they agree |
| FixTotals.Repair | tracker/management/commands/fix_member_totals.py:44-60 | a member changes iff the run is real and it is classed fixed; only its paid total changes; after a real run a member whose read and save succeed agrees with its payments |
| FixTotals.CountsPartition | tracker/management/commands/fix_member_totals.py:34-66 | the fixed, correct and error counts add up to the number of members |
| FixTotals.Reconcile | tracker/management/commands/fix_member_totals.py:17-66 | the loop leaves each member as `Repair` says and returns the fixed and error counts of the members as they were |
| FixTotals.DryRunChangesNothing | tracker/management/commands/fix_member_totals.py:45-49 | a dry run changes no member (while still counting the would-be fixes) |
| FixTotals.RealRunRestoresTotals | tracker/management/commands/fix_member_totals.py:50-51 | after a real run every member not counted as an error has paid total equal to its payment sum |
| FixTotals.UnfixedMembersUntouched | tracker/management/commands/fix_member_totals.py:58-60 | a member already correct, or one whose processing fails, is left as it was |
| FixTotals.SecondRunFixesNothing | tracker/management/commands/fix_member_totals.py:37-51 | running the repair again right after a real run fixes nothing |
| Dashboard.Normalise | tracker/views.py:73-79 | a null pledge becomes 70,000.00 and a null paid total 0.00; every other field is kept |
| Dashboard.NormaliseOnlyFillsNulls | tracker/views.py:73-79 | a row changes exactly when one of its amounts is null |
| Dashboard.LoadMembers | tracker/views.py:66-84 | the loading loop lists every stored row in order, normalised |
| Dashboard.Keep | tracker/views.py:105-134 | the surviving members are never more than the input |
| Dashboard.KeepConcat | tracker/views.py:105-134 | filtering a concatenation filters each part, so the survivors keep their order |
| Dashboard.KeepMembers | tracker/views.py:105-134 | a member survives iff it was listed and satisfies the criterion |
| Dashboard.KeepNone | tracker/views.py:118-134 | when the criterion holds for nobody the result is empty |
| Dashboard.SearchFilter | tracker/views.py:105-115 | an empty query keeps the list; otherwise exactly the members whose name or email contains the query ignoring case, or whose phone contains it, in order |
| Dashboard.StatusFilter | tracker/views.py:118-134 | an empty filter keeps the list; otherwise exactly the members the elif chain accepts, in order |
| Dashboard.StatusFiltersAgreeWithLedger | tracker/views.py:118-132 | the "complete", "incomplete", "not_started" and "exceeded" filters keep exactly the members whose ledger property holds; "exceeded" members also pass "complete" |
| Dashboard.UnknownFilterKeepsNobody | tracker/views.py:118-134 | a filter value other than the five known ones empties the list |
| Dashboard.BucketMatchesStatus | tracker/views.py:155-163 | for valid amounts the statistics bucket is the one the member's status label names |
| Dashboard.CountBucket | tracker/views.py:155-163 | a bucket never counts more members than there are |
| Dashboard.BucketsPartition | tracker/views.py:146-163 | every member is counted in exactly one of the four buckets |
| Dashboard.Statistics | tracker/views.py:146-163 | the loop returns the pledged and collected sums and the four bucket counts, which add up to the number of members |
| Dashboard.NumPages | tracker/views.py:191-192 | the page count is the member count divided by 20, rounded up: 0 exactly for no members |
| Dashboard.PageParamReadsInteger | tracker/views.py:184-186 | a `page` parameter written as an integer is read as that integer |
| Dashboard.PageParamDefaultsToFirst | tracker/views.py:184-188 | no `page` parameter, or one `int()` refuses, means page 1 |
| Dashboard.ClampPage | tracker/views.py:194-198 | a page below 1 becomes 1, one past the last becomes the last (when there is one), any other is kept |
| Dashboard.SliceBound | tracker/views.py:207-209 | Python's reading of a slice bound stays within the list and keeps an in-range bound |
| Dashboard.Slice | tracker/views.py:207-209 | Python's slice is at most the list and is the subsequence for in-range bounds |
| Dashboard.GetPage | tracker/views.py:201-237 | the page keeps its number, reports the page count, and holds at most 20 members |
| Dashboard.PageIsWindow | tracker/views.py:205-209 | page k lists the members from (k-1)·20 up to k·20, cut to the list |
| Dashboard.PageInRange | tracker/views.py:201-224 | a page within range is the window from (p-1)·20 to p·20, is never empty, has a next page iff members remain after it, and a previous one iff p > 1 |
| Dashboard.PagesCoverList | tracker/views.py:201-237 | pages 1 to `num_pages`, laid end to end, list every member once, in order |
| Dashboard.EmptyListKeepsRequestedPage | tracker/views.py:194-198 | with no members a requested page above 1 is kept, so the empty page reports a previous page |
| Dashboard.DashboardView | tracker/views.py:64-237 | the members shown are the normalised rows filtered by search then status; the pledged and collected totals and each of the four bucket counts are those of the shown members, and the counts add up to them; the page is the clamped requested page of them |
| Forms.CleanAmount | tracker/forms.py:127-140 | an amount passes unchanged iff present, positive and at most 10,000,000 TZS; each failure has its own message |
| Forms.CleanDate | tracker/forms.py:142-159 | a date passes unchanged iff present and not after today + 30 days; otherwise the required or too-far message |
| Forms.DateHorizon | tracker/forms.py:152-157 | today and earlier pass, the 30th day ahead passes, the 31st is refused |
| Forms.CleanNote | tracker/forms.py:161-168 | the note is stripped and accepted iff the stripped text has at most 500 characters |
| Forms.StripIdempotent | tracker/forms.py:163 | stripping twice is stripping once |
| Forms.CleanNoteIdempotent | tracker/forms.py:161-168 | a cleaned note cleans to itself |
| Forms.CleanExcelFile | tracker/forms.py:230-244 | a file passes iff present, named `*.xlsx` and at most 5 MiB, checked in that order with their messages |
| Forms.XlsxSuffixIsCaseSensitive | tracker/forms.py:237-238 | "BOOK.XLSX" is refused while "book.xlsx" of exactly 5 MiB passes |
| Forms.MemberFormInitialPledge | tracker/forms.py:56-60 | `__init__` overrides the pledge field's initial value with 70,000.00 iff the member has no primary key; for an existing member it leaves the field's initial as Django set it |
| Forms.PledgeFieldInitial | tracker/forms.py:56-60 | the pledge field's initial value after `__init__` is 70,000.00 with or without a primary key, because Django copies the model default (tracker/models.py:9-14) into the field, so the override changes nothing |
| Forms.AmountField | tracker/forms.py:123-140 | the field accepts exactly what `clean_amount` accepts; a missing amount gets the field's "This field is required.", an amount of 100,000,000 TZS or more (either sign) gets one of the two digit-limit messages `DigitError` picks, and otherwise `clean_amount` decides, so a zero or negative amount gets "must be greater than zero" and `clean_amount`'s own "required" never reaches the user |
| Forms.DigitError | tracker/models.py:78-82 | the DecimalField(max_digits=10, decimal_places=2) validator refuses an amount iff its magnitude is at least 100,000,000 TZS (nine or more digits before the point); which of its two messages is given is shown by the two lemmas below |
| Forms.WholeDigitsMessageCases | tracker/models.py:78-82 | 100,000,000, 100,000,000.5 and -9,999,999,999 TZS get the eight-digits-before-the-point message |
| Forms.TotalDigitsMessageCases | tracker/models.py:78-82 | 10,000,000,000 and 100,000,000.55 TZS get the ten-digits-in-total message, and 99,999,999.99 TZS passes |
| Forms.DateField | tracker/forms.py:123-159 | a missing date gets "This field is required."; otherwise `clean_date` decides |
| Forms.FieldMessages | tracker/views.py:323-326 | a failing field gives exactly one message, its label, ": " and its error; a clean one gives none |
| Forms.ValidatePayment | tracker/forms.py:86-168 | the form is valid iff amount, date and note each clean, and then holds the amount, the date and the stripped note; otherwise every failing field is reported, labelled, in the order amount, date, note |
| Forms.EmptyFormReportsBothFields | tracker/views.py:323-326 | an empty form reports the amount and then the date as required, with their labels |
| MemberUpdates.InlineValue | tracker/views.py:516-528 | a missing or empty value is 0; otherwise it is unreadable exactly when the text without commas is not a decimal, and a readable value is its reading, or 0 when that is negative |
| MemberUpdates.InlineValueReadsRendering | tracker/views.py:518-528 | a value shown with thousands separators and two decimals reads back as itself, a negative one as 0 |
| MemberUpdates.UpdateMemberField | tracker/views.py:516-548 | only "pledge" and "paid_total" can be set; an unreadable value changes nothing; otherwise exactly that field becomes the cleaned value, the payments untouched |
| MemberUpdates.DailyPaymentAmount | tracker/views.py:846-858 | accepted iff the member id and amount are given and the amount without commas reads as a positive decimal, which is the recorded amount |
| MemberUpdates.DailyPaymentHasNoCeiling | tracker/views.py:852-858 | an amount above 10,000,000 TZS is accepted here while the payment form refuses it |
| MemberUpdates.RecordDailyPayment | tracker/views.py:846-867 | when accepted a new payment is appended and the paid total grows by its amount; otherwise nothing changes |
| MemberUpdates.DetailPaymentCheck | tracker/views.py:283-285 | the member page accepts an amount iff it is positive |
| MemberUpdates.FormAmountsPassDetailCheck | tracker/views.py:283-285 | every amount the payment form accepts passes the member page's own check |
| MemberUpdates.RecordFormPayment | tracker/views.py:283-306 | the payment is appended and the paid total becomes the sum of all payments, old sum plus the amount |
| MemberUpdates.AddMember | tracker/views.py:557-590 | a missing or empty name gets "Name is required"; a name matching an existing one ignoring case gets "Member already exists"; a pledge Decimal() refuses fails with the exception's message; otherwise the new member has the given pledge (70,000.00 by default) and nothing paid |
| MemberUpdates.AddMemberKeepsNamesDistinct | tracker/views.py:568-574 | names distinct ignoring case stay distinct after an accepted add |
| ExcelImport.OptionalField | tracker/views.py:406-409 | an optional column is the stripped text, or None when the cell is empty or blank |
| ExcelImport.RowPledge | tracker/views.py:405 | a pledge cell Python counts true is read as a decimal (unreadable iff not a number); an empty cell or a numeric zero takes the default, and the pledge is missing iff the default is empty |
| ExcelImport.ZeroCellsCountAsEmpty | tracker/views.py:400-405 | a zero pledge cell reads like an empty one, and a row whose name cell is zero is skipped |
| ExcelImport.UpsertRow | tracker/views.py:411-425 | update-or-create by name never drops a stored member |
| ExcelImport.CreateRow | tracker/views.py:426-439 | create-only never drops or changes a stored member and never counts an update |
| ExcelImport.ImportRow | tracker/views.py:399-442 | a row whose name cell is false changes nothing; a named row adds exactly one to created + updated + errors; no row drops a stored member; in create-only mode no stored member changes |
| ExcelImport.CreateModeRow | tracker/views.py:426-439 | in create-only mode a full row naming a stored member adds "Member '<name>' already exists" and nothing else; a new name with a pledge is stored with the row's fields and nothing paid and counted as created; a new name without any pledge fails to save |
| ExcelImport.UpsertModeRow | tracker/views.py:411-425 | in update mode a full row with a pledge stores the row's fields under the stripped name, keeping the stored paid total (0 when new), changes no other member, adds no error, and counts an update iff the name was stored, otherwise a creation |
| ExcelImport.ImportRows | tracker/views.py:394-442 | the loop leaves the state `ImportAll` gives for all rows from the stored members |
| ExcelImport.Skipped | tracker/views.py:400-401 | the rows skipped for an empty name are at most all of them |
| ExcelImport.EveryRowAccountedFor | tracker/views.py:399-442 | created + updated + errors equals the rows with a name: each is counted exactly once |
| ExcelImport.CreateOnlyKeepsExisting | tracker/views.py:426-439 | without "update existing" no stored member changes and nothing counts as updated |
| ExcelImport.NarrowSheetFailsEveryNamedRow | tracker/views.py:399-442 | on a sheet narrower than six columns every named row fails with an error (reading a missing cell raises) and no member is created or changed |
| ExcelImport.UpsertModeHasNoErrors | tracker/views.py:411-425 | in update mode, with every row six columns wide and every pledge readable, no row fails and every named row's member is stored |
| ExcelImport.LastRowWins | tracker/views.py:411-425 | in update mode, with every row six columns wide and every pledge readable, a member's stored fields are those of the last row naming it |
| ExcelImport.ImportMessages | tracker/views.py:445-453 | the success notice "Successfully created n new members!" iff n > 0, then the info notice "Updated n existing members!" iff n > 0, then exactly the error notices of `ErrorMessages` |
| ExcelImport.ErrorMessages | tracker/views.py:449-453 | at most five errors are shown, in order, as warnings, then one notice counting the rest |
| Subscription.RemainingTrialDays | tracker/admin.py:85-91 | the whole days left in a running trial, floored; 0 when no trial is running |
| Subscription.RemainingTrialDaysBound | tracker/admin.py:87-91 | a trial started by now has at most 7 days left, exactly 7 when it started now, and at most 6 once any time has passed |
| Subscription.PaidExpiryLowerBound | tracker/admin.py:95-107 | the new expiry is at least now, and at least any earlier expiry, plus 30 days per month |
| Subscription.PaidExpiryStacks | tracker/admin.py:95-98 | an unexpired subscription is extended by exactly 30 days per month, even while a trial also runs |
| Subscription.PaidExpiryCarriesTrial | tracker/admin.py:99-103 | otherwise a running trial's rest is carried over, losing less than one day to the whole-day rounding |
| Subscription.PaidExpiryFromNow | tracker/admin.py:104-107 | with neither running, the period starts now |
| Subscription.PaidExpiryIgnoresStatus | tracker/admin.py:81-107 | the expiry depends only on the organisation's expiry and trial start, not its status |
| Subscription.ApproveOne | tracker/admin.py:69-145 | a pending request becomes approved whatever happens next, the key set of organisations is kept, and no other organisation changes |
| Subscription.PaidApprovalSubscribes | tracker/admin.py:76-126 | a paid approval sets the organisation SUBSCRIBED with exactly the expiry `PaidExpiry` computes (so at least the paid period past now and past the old expiry), reports the organisation's name with that expiry, and changes nothing else |
| Subscription.MissingOrganisationFails | tracker/admin.py:69-145 | a pending paid or trial request whose organisation does not exist is still approved, and reports the lookup error with no organisation changed |
| Subscription.TrialApprovalOnlyWhenIdle | tracker/admin.py:127-143 | a trial request starts a trial (status FREE_TRIAL, started now) iff none was started or the last has ended; otherwise nothing changes |
| Subscription.TrialApprovalCanReplaceSubscribed | tracker/admin.py:133-140 | a subscribed organisation whose old trial ended is switched back to FREE_TRIAL by a trial approval, keeping its expiry |
| Subscription.PlainApprovalChangesNothing | tracker/admin.py:72-76 | a request that is neither paid nor a trial is approved and touches no organisation |
| Subscription.ApproveRequests | tracker/admin.py:61-145 | the bulk loop computes the fold `ApproveAll` over the selection |
| Subscription.VisitAppends | tracker/admin.py:69-73 | each selected request is appended, approved if it was pending and unchanged otherwise |
| Subscription.VisitCounts | tracker/admin.py:69-145 | one request adds one to the count iff it is pending and extends or starts a trial, one to the updated list iff it is pending and extends, and one to the errors iff it is pending and fails |
| Subscription.ApproveAllStatuses | tracker/admin.py:69-73 | every pending selected request ends approved; every other one is left exactly as it was |
| Subscription.ApproveAllCounts | tracker/admin.py:69-145 | the count, the updated list and the errors are exactly the extensions and trials, the extensions, and the failures among the outcomes of the pending requests in turn, so together at most the pending requests |
| Subscription.ApproveAllUntouched | tracker/admin.py:76-141 | organisations no pending selected request points at are unchanged |
| Subscription.ApproveAllWithoutPending | tracker/admin.py:69 | a selection with no pending request changes and counts nothing |
| Subscription.ApprovalMessage | tracker/admin.py:147-156 | the message starts "Approved n payment request(s)"; it is a warning iff there were errors, a success iff no errors but updates |
| Subscription.ApprovalMessageLists | tracker/admin.py:148-153 | a warning's text contains every error, and a success's text contains every updated organisation |
| Subscription.DeclineAll | tracker/admin.py:159-161 | every selected request becomes declined, and the reported number is how many were not declined before |
| Subscription.DeclineMessageCountsChanges | tracker/admin.py:159-161 | the notice gives the number of selected requests that were not already declined |
| Subscription.DeclineTwice | tracker/admin.py:159-161 | declining again changes nothing and reports 0 |
| Subscription.TypeLine | tracker/admin.py:34-37 | the summary's first line is the request type |
| Subscription.AmountLine | tracker/admin.py:39 | the second line is the amount |
| Subscription.DetailLines | tracker/admin.py:41-51 | the middle lines open with the discount line iff the discount is positive, and none of them is an expiry line |
| Subscription.ExpiryLines | tracker/admin.py:53-56 | the expiry line is present iff the request is approved, paid, and its organisation has an expiry |
| Subscription.SummaryLines | tracker/admin.py:30-58 | the summary opens with the type line then the amount line |
| Subscription.SummaryEndsWithExpiry | tracker/admin.py:53-58 | an approved paid request with an organisation expiry ends with that expiry, and only there |
| Subscription.SummaryOtherwiseWithoutExpiry | tracker/admin.py:53-58 | in every other case no summary line is an expiry line |
| Subscription.SummaryShowsDiscount | tracker/admin.py:41-42 | the third line is the discount iff the discount is positive |
| Subscription.SubscriptionInfo | tracker/admin.py:212-270 | the panel opens with the status, and shows the missing-expiry warning iff the organisation is SUBSCRIBED without an expiry |
| Subscription.EstimateOnlyWithWarning | tracker/admin.py:229-241 | an estimated expiry appears only beside the warning, and only when it lies in the future |
| Portal.PortalExpiry | tracker/views_bossin_admin.py:276-282 | the portal's expiry extends an unexpired one by exactly the paid period, and otherwise is exactly the paid period past now |
| Portal.PortalAgreesWithoutTrial | tracker/views_bossin_admin.py:276-282 | when no trial days would be carried, the portal and the admin action give the same expiry |
| Portal.PortalNeverLater | tracker/views_bossin_admin.py:276-282 | the portal gives exactly the carried trial days less than the admin action, never more |
| Portal.PortalDropsTrialDays | tracker/views_bossin_admin.py:276-282 | one month approved right after a trial started: 37 days from the admin action, 30 from the portal |
| Portal.PortalApproved | tracker/views_bossin_admin.py:276-285 | a paid portal approval subscribes the organisation with exactly the expiry `PortalExpiry` computes; a zero-month one changes nothing |
| Portal.PortalStore.Approve | tracker/views_bossin_admin.py:260-288 | a missing request is a 404; a processed one is refused with no change; a pending one becomes approved and its organisation is updated as `PortalApproved` says |
| Portal.PortalStore.Decline | tracker/views_bossin_admin.py:291-305 | a missing request is a 404; a processed one is refused; a pending one becomes declined; no organisation changes |
| Portal.PortalStore.Suspend | tracker/views_bossin_admin.py:199-212 | a missing organisation is a 404; otherwise only its active flag changes, as `SuspendedState` says, and the notice is 'Organization "<name>" has been suspended.' or '… reactivated.', or none for any other action |
| Portal.SuspendedState | tracker/views_bossin_admin.py:204-209 | "suspend" deactivates, "reactivate" activates, any other action keeps the flag |
| Portal.SuspendThenReactivate | tracker/views_bossin_admin.py:204-209 | suspending then reactivating leaves the organisation active |
| Portal.MonthStarts | tracker/views_bossin_admin.py:74-83 | six valid first-of-month dates, oldest first, ending with this month, each the month after the one before |
| Portal.RevenueBuckets | tracker/views_bossin_admin.py:86-92 | each bucket runs from its month start to the first of the next month |
| Portal.BucketsTile | tracker/views_bossin_admin.py:86-95 | the buckets are non-empty and each ends where the next begins |
| Portal.PathName | tracker/views_bossin_admin.py:379 | the sanitised name contains no '/' and is never "." |
| Portal.PathNameOfPlainName | tracker/views_bossin_admin.py:379 | a plain file name is kept as it is |
| Portal.PathNameKeepsDotDot | tracker/views_bossin_admin.py:379 | "a/.." sanitises to "..": `Path(...).name` keeps a parent-directory component |
| Portal.BackupDownload | tracker/views_bossin_admin.py:374-391 | a missing or empty name is "not specified"; otherwise the path is backups/ followed by the sanitised name: "not found" iff nothing is there, an open failure iff it is a directory, and served under the sanitised name, which has no '/', iff it is a file |
| Portal.ServedPathStaysInBackups | tracker/views_bossin_admin.py:379-386 | a path that passes the exists check is "backups" itself, its parent "backups/..", or one '/'-free name other than "." and ".." directly under "backups/" |
| Portal.OnlyFilesInsideBackupsAreServed | tracker/views_bossin_admin.py:379-386 | where "backups" and its parent are not files, only a file directly under "backups/" is served |
| Portal.DotDotReachesParent | tracker/views_bossin_admin.py:379-386 | asking for "a/.." reaches the parent directory "backups/..": it passes the exists check and then fails to open, so the sanitiser does not keep the path inside the backups directory |
| Portal.CategoryDiscounts | tracker/views_bossin_admin.py:471-477 | every category gets a discount, and each is the posted integer or 35 |
| Portal.DiscountDefault | tracker/views_bossin_admin.py:473 | a category with nothing posted gets 35 |
| Portal.DiscountReadsInteger | tracker/views_bossin_admin.py:473-475 | a posted integer is taken as it is |
| Portal.DiscountFallback | tracker/views_bossin_admin.py:476-477 | a posted value that is not an integer gives 35 |
| Permissions.GetUserOrgRole | tracker/permissions.py:11-24 | the role is that of the user's active membership in the organisation, and None iff there is none |
| Permissions.RoleHierarchy | tracker/permissions.py:27-54 | owner ⇒ admin ⇒ staff ⇒ member; a member is staff or viewer; a viewer is a member but not staff |
| Permissions.CapabilitiesByRole | tracker/permissions.py:57-74 | editing the organisation, managing staff and recording transactions belong to owners and admins; editing members belongs to every role but viewer |
| Permissions.InactiveMembershipGrantsNothing | tracker/permissions.py:16-24 | an inactive membership gives no role and no capability |
| Permissions.GateCheck | tracker/permissions.py:103-150 | once user and tenant are known a gate either lets the view run or refuses with its message |
| Permissions.Guard | tracker/permissions.py:81-151 | `tenant_required` lets the view run iff there is a tenant; a role gate sends an anonymous user to log in, and refuses "Organization not found." when there is no tenant |
| Permissions.GuardInvokesExactly | tracker/permissions.py:94-151 | a role gate runs the view iff a logged-in user has, in the tenant, the role its predicate asks for |
| Permissions.StricterGatesPassLooser | tracker/permissions.py:81-151 | passing the owner gate means passing the admin gate, then staff, then member, then tenant |
| Context.ThemeContext | tracker/context_processors.py:44-116 | no tenant gives the defaults; a tenant sets its name; a theme sets the branding (navbar falls back to the tenant name) and a missing one keeps the defaults; a signed-in user gets their role and its flags, an anonymous one none |
| Context.FlagsAgreeWithPermissions | tracker/context_processors.py:108-114 | the member, staff and transaction flags equal the permission rules; admin access, log and import equal admin; `can_edit_org` only implies `can_edit_organization` |
| Context.EditOrgFlagDisagreesForAdmins | tracker/context_processors.py:108 | an admin may edit the organisation by the permission rules, yet `can_edit_org` is false for them |
| Context.FlagsByRole | tracker/context_processors.py:100-114 | a viewer gets only the viewer flag, an owner every flag but viewer, no role no flag |
| Context.NonMembersSeeNoFlags | tracker/context_processors.py:100-114 | a signed-in user without an active membership gets no flag |
| Middleware.Slug | tracker/middleware.py:43-48 | the slug has no '/', and a path of slashes only has an empty slug |
| Middleware.SlugOfTenantPath | tracker/middleware.py:43-48 | "/slug" followed by nothing or by "/…" yields exactly that slug |
| Middleware.Resolve | tracker/middleware.py:36-66 | excluded paths are skipped; otherwise an empty slug gives no tenant, an active organisation with the slug is found, and any other slug is missing |
| Middleware.AdminWithoutSlashIsLookedUp | tracker/middleware.py:25-48 | "/admin" without its trailing slash is not excluded and is looked up as the slug "admin" |
| Middleware.RootHasNoSlug | tracker/middleware.py:64-66 | the site root resolves to no tenant |
| Middleware.TenantRequest.constructor | tracker/middleware.py:19-37 | a request starts with no tenant and the session it came with |
| Middleware.TenantRequest.ProcessRequest | tracker/middleware.py:19-66 | the tenant is the found organisation or None; a found one is written to the session's id and slug; a missing slug answers 404 "Organization '<slug>' not found or is inactive." |
| Middleware.ProcessResponse | tracker/middleware.py:68-72 | the response is returned unchanged |
| Filters.ThousandsSeparator | tracker/templatetags/custom_filters.py:30-50 | None shows "0"; an integer shows its digits with commas, which removed give its decimal text |
| Filters.FormatCurrency | tracker/templatetags/custom_filters.py:7-27 | None shows "TZS 0"; every result starts "TZS " |
| Filters.CurrencyDisplay | tracker/templatetags/custom_filters.py:53-59 | identical to `thousands_separator` |
| Filters.Intcomma | tracker/templatetags/custom_filters.py:62-83 | None shows "0" |
| Filters.AbsValue | tracker/templatetags/custom_filters.py:86-106 | None gives 0; an integer gives its magnitude, never negative |
| Filters.FormatCurrencyIsPrefixedSeparator | tracker/templatetags/custom_filters.py:24-25 | `format_currency(v)` is "TZS " followed by `thousands_separator(v)`, None included |
| Filters.IntcommaRoundTrip | tracker/templatetags/custom_filters.py:78-81 | digits are grouped in threes after any sign, and deleting the commas reads back the integer |
| Filters.IntcommaMatchesSeparator | tracker/templatetags/custom_filters.py:30-83 | on integers and None, `intcomma` and `thousands_separator` agree |
| Filters.AbsValueIgnoresSign | tracker/templatetags/custom_filters.py:86-106 | `abs_value` ignores the sign and is 0 only for 0 |
| Numerals.WithCommasParses | tracker/templatetags/custom_filters.py:81 | "{:,}" of an integer, commas removed, reads back as that integer |
| Numerals.WithCommasCentsParses | tracker/admin.py:39 | "{:,.2f}" of an amount, commas removed, reads back as that amount |
| Calendar.AddDaysNotBefore | tracker/forms.py:154 | adding days never moves a date earlier, and adding a positive number moves it later |

## Left out

- Persistence, the ORM, transactions and locking (`select_for_update`, `transaction.atomic`), HTML rendering, redirects and the message framework's storage are not modelled. Notices are returned as values.
- Concurrency is not modelled. Two requests recording payments for one member at once could interleave between the save and the total's recomputation.
- Floating point is not modelled: `progress_percentage`, the `float(...)` values in JSON responses, and the context's `float(theme.default_pledge_amount)`. The context keeps the amounts exact, in cents.
- Decimal input is read only in plain form with at most two fractional digits. Exponents, NaN, Infinity, underscores, and the rounding of more digits to the fields' two places are read as unreadable.
- Filters.AbsValue: exact magnitude for every integer. The source converts integers through `float`, so magnitudes above 2^53 would be rounded; that rounding is not modelled.
- Filters.Intcomma, Filters.ThousandsSeparator, Filters.FormatCurrency: only integer and None inputs. Strings and floats are not modelled, and neither is the half-even rounding of "{:,.0f}". A non-numeric string makes `Decimal` raise an exception that the filters' `except (ValueError, TypeError)` does not catch.
- Unicode case folding is not modelled. `Lower` folds ASCII letters only, which is what the search and the name comparison use here.
- The clock is read once per bulk approval. The source calls `timezone.now()` afresh for each request; the model takes one `now` per batch.
- The spreadsheet itself is not modelled (openpyxl reading a workbook). The import loop takes a sequence of rows, each cell given as its `str()` text and whether Python counts it false.
- The import keys members by name. This matches `update_or_create(name=...)` and `filter(name=...).exists()` only when names are unique. Duplicate stored names would make `update_or_create` raise, which is not modelled.
- The database's own error text is represented by one string per kind of failure: a missing pledge ("NOT NULL constraint failed: tracker_member.pledge") and an unreadable number. The exact wording of other backend errors is not modelled.
- Model-field validators do not run on `save()`. The inline editor and the import can therefore store a zero pledge. The model lets them, as the code does, and `Ledger.StatusPartition` states its result only for valid fields.
- The backup download's file system is a parameter `disk` that says whether a path is absent, a file or a directory. Streaming the file is not modelled, and neither are the error page and status that the failed `open()` of a directory produces.
- The session is not modelled beyond the two keys the middleware writes. Authentication is not modelled beyond "a user id or none".
- Permissions.GetUserOrgRole: at most one membership per user and organisation. Two active rows would make `.get` raise, which is not modelled.
- Context.ThemeContext: the theme lookup either succeeds or fails as a whole. A failure partway through the theme block would keep the fields already assigned; that partial state is not modelled.
- `fix_member_totals` writes to stdout. That output is not modelled; the counts it reports are.
- MemberUpdates.RecordDailyPayment, MemberUpdates.UpdateMemberField, MemberUpdates.AddMember, Ledger.MemberAccount.SaveTransaction and ExcelImport.ImportRow store any integer. The columns are DecimalField(max_digits=10, decimal_places=2), which hold less than 10^10 cents; what the database does with a larger value depends on the backend and is not modelled.
- MemberUpdates.DailyPaymentAmount: the amount is taken as text. A JSON number 0 is false in the source and gets the "required" message; the model reads "0" and gives the "greater than 0" message. Both refuse the payment.
- Forms.DigitError, Forms.AmountField: an amount is taken as typed without trailing zeros after the point. Django counts typed trailing zeros as digits, so "100000000.50" gets the ten-digits-in-total message where the model, reading 100,000,000.5, gives the eight-digit one. More than two decimals, refused by Django, cannot be written in cents.
- Forms.CleanExcelFile: Django's FileField runs its own checks first ("No file was submitted.", "The submitted file is empty."); only the form's `clean_excel_file` is modelled, with a missing file as its "No file uploaded." case.
- Text.IsSpace: ASCII whitespace only. Python's `str.strip()` also strips Unicode spaces, which are not modelled.
- The dashboard's repair of a member with a null pledge or paid total (tracker/views.py:72-79: set 70,000.00 or 0.00 and save) is not modelled as a write; `Dashboard.Normalise` gives the values it writes.
- `MemberForm`, `TransactionForm` and `ExcelImportForm` widgets, labels and placeholders are not modelled; only their cleaning is.
- Forms.MemberFormInitialPledge, Forms.PledgeFieldInitial: only the field's own initial value is modelled. A form built on a member shows that member's stored pledge (the instance's data, which Django puts before the field's initial); for an unsaved member that is the model default 70,000.00 as well.
- `daily_collection` repeats the dashboard's filtering, statistics and pagination (tracker/views.py:614-832). The `Dashboard` members model both copies.

## Behaviour modelled as the code has it

- Bulk approval marks a request approved before it touches the organisation. A request whose organisation step fails therefore stays approved and is reported among the errors.
- Trial folding: a trial started exactly at `now` still has 7 whole days left. Only once time has passed is the carried-over rest at most 6.
- The portal's approval never carries over trial days (`Portal.PortalNeverLater`). Its message says "extended for 0 months" for a trial request, which it approves without touching the organisation.
- A trial approval can switch a SUBSCRIBED organisation whose old trial has ended back to FREE_TRIAL (`Subscription.TrialApprovalCanReplaceSubscribed`).
- The payment form's `required=True` makes Django's own "This field is required." fire before `clean_amount`/`clean_date`, so those cleaners' own "required" messages are unreachable through the form. The model's 0.01 minimum is not a form-field validator, so a zero or negative amount gets `clean_amount`'s "greater than zero" (`Forms.AmountField`). Every failing field is reported with its label (`Forms.ValidatePayment`).
- The daily-collection payment endpoint has no 10,000,000 TZS ceiling, unlike the form (`MemberUpdates.DailyPaymentHasNoCeiling`).
- The inline editor writes the paid total directly, without recomputing it from the payments, so the two can disagree until `fix_member_totals` runs.
- `can_edit_org` in the template context is owner-only, while `can_edit_organization` also grants admins (`Context.EditOrgFlagDisagreesForAdmins`).
- With an empty member list, a requested page above 1 is kept, and the empty page reports a previous page (`Dashboard.EmptyListKeepsRequestedPage`).
- The backup name sanitiser keeps "..", so "a/.." asks for the parent of the backups directory. That path passes the exists check and then fails to open as a directory (`Portal.DotDotReachesParent`); so does the empty name left by "/", which gives "backups" itself. "/admin" without a trailing slash is resolved as an organisation slug.
- The spreadsheet import reads columns 2 to 6 inside its per-row error handler. On a sheet narrower than six columns every named row is therefore recorded as an error and nothing is imported (`ExcelImport.NarrowSheetFailsEveryNamedRow`).
