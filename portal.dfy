/**
 * The platform administrators' portal: approving and declining a single
 * payment request, suspending an organisation, the six month buckets of the
 * revenue chart, the backup download's filename sanitising, and the
 * per-category discount form.
 */
module Portal {
  import opened Wrappers
  import opened Text
  import opened Calendar
  import opened Subscription

  // ---------------------------------------------------------------------
  // Approve, decline, suspend
  // ---------------------------------------------------------------------

  /**
   * The portal's expiry rule: the paid period is added to the current expiry
   * when that is still in the future, otherwise to now. Trials play no part.
   */
  function PortalExpiry(o: Org, months: int, now: int): (e: int)
    requires months > 0
    ensures e >= now + Days(DaysPerMonth * months)
    ensures SubscriptionActive(o, now) ==> e - o.expires.value == Days(DaysPerMonth * months)
    ensures !SubscriptionActive(o, now) ==> e - now == Days(DaysPerMonth * months)
  {
    (if SubscriptionActive(o, now) then o.expires.value else now) + Days(DaysPerMonth * months)
  }

  /** The two approval paths agree whenever no trial days would be carried over. */
  lemma PortalAgreesWithoutTrial(o: Org, months: int, now: int)
    requires months > 0
    requires SubscriptionActive(o, now) || !TrialActive(o, now)
    ensures PortalExpiry(o, months, now) == PaidExpiry(o, months, now)
  {
  }

  /** The portal never grants more than the admin action, and grants less exactly by the carried trial days. */
  lemma PortalNeverLater(o: Org, months: int, now: int)
    requires months > 0
    ensures PaidExpiry(o, months, now) - PortalExpiry(o, months, now)
      == (if SubscriptionActive(o, now) then 0 else Days(RemainingTrialDays(o, now)))
    ensures PortalExpiry(o, months, now) <= PaidExpiry(o, months, now)
  {
  }

  /** A one-month approval just after a trial started: the admin grants 37 days, the portal 30. */
  lemma PortalDropsTrialDays()
    ensures var o := Org(1, "Choir", FreeTrial, Some(0), None, true);
      && PaidExpiry(o, 1, 0) == Days(37)
      && PortalExpiry(o, 1, 0) == Days(30)
  {
    var o := Org(1, "Choir", FreeTrial, Some(0), None, true);
    assert RemainingTrialDays(o, 0) == 7;
  }

  /** The organisation after a portal approval of `months` months. */
  function PortalApproved(o: Org, months: int, now: int): (p: Org)
    ensures months <= 0 ==> p == o
    ensures months > 0 ==>
      && p.status == Subscribed && p.expires == Some(PortalExpiry(o, months, now))
      && p.expires.value >= now + Days(DaysPerMonth * months)
      && p.(status := o.status, expires := o.expires) == o
  {
    if months > 0 then o.(expires := Some(PortalExpiry(o, months, now)), status := Subscribed) else o
  }

  datatype PortalOutcome =
    | NotFound                 // get_object_or_404 raised Http404
    | Rejected(error: string)  // messages.error, nothing saved
    | Done(success: string)    // messages.success

  const AlreadyProcessed: string := "This request has already been processed."

  /** The payment requests and organisations the portal reads and writes. */
  class PortalStore {
    var requests: map<int, Request>
    var orgs: map<int, Org>

    /** Every request is stored under its own id and belongs to a stored organisation. */
    ghost predicate Valid()
      reads this
    {
      forall id :: id in requests ==> requests[id].id == id && requests[id].orgId in orgs
    }

    constructor (requests: map<int, Request>, orgs: map<int, Org>)
      requires forall id :: id in requests ==> requests[id].id == id && requests[id].orgId in orgs
      ensures Valid() && this.requests == requests && this.orgs == orgs
    {
      this.requests := requests;
      this.orgs := orgs;
    }

    /** bossin_subscription_approve. */
    method Approve(requestId: int, now: int) returns (res: PortalOutcome)
      requires Valid()
      modifies this
      ensures Valid()
      ensures requestId !in old(requests) ==> res == NotFound && unchanged(this)
      ensures requestId in old(requests) && old(requests)[requestId].status != Pending ==>
        res == Rejected(AlreadyProcessed) && unchanged(this)
      ensures requestId in old(requests) && old(requests)[requestId].status == Pending ==>
        var r := old(requests)[requestId];
        && requests == old(requests)[requestId := r.(status := Approved)]
        && orgs == old(orgs)[r.orgId := PortalApproved(old(orgs)[r.orgId], r.months, now)]
        && res == Done("Payment request approved. Subscription extended for "
                       + IntToString(r.months) + " months.")
    {
      if requestId !in requests {
        return NotFound;
      }
      var r := requests[requestId];
      if r.status != Pending {
        return Rejected(AlreadyProcessed);
      }
      requests := requests[requestId := r.(status := Approved)];
      var o := orgs[r.orgId];
      if r.months > 0 {
        var expires := if SubscriptionActive(o, now) then o.expires.value + Days(DaysPerMonth * r.months)
                       else now + Days(DaysPerMonth * r.months);
        orgs := orgs[r.orgId := o.(expires := Some(expires), status := Subscribed)];
      } else {
        orgs := orgs[r.orgId := o];
      }
      res := Done("Payment request approved. Subscription extended for " + IntToString(r.months) + " months.");
    }

    /** bossin_subscription_decline. */
    method Decline(requestId: int) returns (res: PortalOutcome)
      requires Valid()
      modifies this
      ensures Valid()
      ensures orgs == old(orgs)
      ensures requestId !in old(requests) ==> res == NotFound && requests == old(requests)
      ensures requestId in old(requests) && old(requests)[requestId].status != Pending ==>
        res == Rejected(AlreadyProcessed) && requests == old(requests)
      ensures requestId in old(requests) && old(requests)[requestId].status == Pending ==>
        && requests == old(requests)[requestId := old(requests)[requestId].(status := Declined)]
        && res == Done("Payment request declined.")
    {
      if requestId !in requests {
        return NotFound;
      }
      var r := requests[requestId];
      if r.status != Pending {
        return Rejected(AlreadyProcessed);
      }
      requests := requests[requestId := r.(status := Declined)];
      res := Done("Payment request declined.");
    }

    /** bossin_organization_suspend: `action` is the posted field, None when absent. */
    method Suspend(orgId: int, action: Option<string>) returns (res: PortalOutcome)
      requires Valid()
      modifies this
      ensures Valid()
      ensures requests == old(requests)
      ensures orgId !in old(orgs) ==> res == NotFound && orgs == old(orgs)
      ensures orgId in old(orgs) ==>
        orgs == old(orgs)[orgId := old(orgs)[orgId].(isActive := SuspendedState(old(orgs)[orgId].isActive, action))]
      ensures orgId in old(orgs) && action == Some("suspend") ==>
        res == Done("Organization \"" + old(orgs)[orgId].name + "\" has been suspended.")
      ensures orgId in old(orgs) && action == Some("reactivate") ==>
        res == Done("Organization \"" + old(orgs)[orgId].name + "\" has been reactivated.")
      ensures orgId in old(orgs) && action != Some("suspend") && action != Some("reactivate") ==> res == Done("")
    {
      if orgId !in orgs {
        return NotFound;
      }
      var o := orgs[orgId];
      if action == Some("suspend") {
        o := o.(isActive := false);
        res := Done("Organization \"" + o.name + "\" has been suspended.");
      } else if action == Some("reactivate") {
        o := o.(isActive := true);
        res := Done("Organization \"" + o.name + "\" has been reactivated.");
      } else {
        res := Done("");
      }
      orgs := orgs[orgId := o];
    }
  }

  /** The is_active flag after a suspend/reactivate post. */
  function SuspendedState(active: bool, action: Option<string>): (r: bool)
    ensures action == Some("suspend") ==> !r
    ensures action == Some("reactivate") ==> r
    ensures action != Some("suspend") && action != Some("reactivate") ==> r == active
  {
    if action == Some("suspend") then false
    else if action == Some("reactivate") then true
    else active
  }

  /** Suspending and then reactivating restores an active organisation. */
  lemma SuspendThenReactivate(active: bool)
    ensures SuspendedState(SuspendedState(active, Some("suspend")), Some("reactivate"))
  {
  }

  // ---------------------------------------------------------------------
  // Revenue chart months
  // ---------------------------------------------------------------------

  function Reversed<T>(s: seq<T>): (r: seq<T>)
    ensures |r| == |s|
    ensures forall i :: 0 <= i < |s| ==> r[i] == s[|s| - 1 - i]
  {
    seq(|s|, i requires 0 <= i < |s| => s[|s| - 1 - i])
  }

  /**
   * The six first-of-month dates of the revenue chart, oldest first: each
   * step back goes to the day before the cursor and then to the first of
   * that month.
   */
  method MonthStarts(today: Date) returns (ms: seq<Date>)
    requires Valid(today)
    ensures |ms| == 6
    ensures forall i :: 0 <= i < 6 ==>
      Valid(ms[i]) && ms[i].day == 1 && MonthIndex(ms[i]) == MonthIndex(today) - 5 + i
    ensures ms[5] == FirstOfMonth(today)
    ensures forall i :: 0 <= i < 5 ==> NextMonthFirst(ms[i]) == ms[i + 1]
  {
    var built: seq<Date> := [];
    var cursor := FirstOfMonth(today);
    var k := 0;
    while k < 6
      invariant 0 <= k <= 6 && |built| == k
      invariant Valid(cursor) && cursor.day == 1 && MonthIndex(cursor) == MonthIndex(today) - k
      invariant forall j :: 0 <= j < k ==>
        Valid(built[j]) && built[j].day == 1 && MonthIndex(built[j]) == MonthIndex(today) - j
    {
      built := built + [cursor];
      cursor := FirstOfMonth(PrevDay(cursor));
      k := k + 1;
    }
    ms := Reversed(built);
    MonthIndexDeterminesFirst(ms[5], FirstOfMonth(today));
    forall i | 0 <= i < 5 ensures NextMonthFirst(ms[i]) == ms[i + 1] {
      MonthIndexDeterminesFirst(NextMonthFirst(ms[i]), ms[i + 1]);
    }
  }

  /** One revenue bucket: payments created at or after `start` and before `end`. */
  datatype Bucket = Bucket(start: Date, end: Date)

  /**
   * The revenue buckets over consecutive month starts: each ends where the
   * next begins, and the last ends at (start + 31 days).replace(day=1).
   */
  method RevenueBuckets(ms: seq<Date>) returns (buckets: seq<Bucket>)
    requires forall i :: 0 <= i < |ms| ==> Valid(ms[i]) && ms[i].day == 1
    requires forall i :: 0 <= i < |ms| - 1 ==> NextMonthFirst(ms[i]) == ms[i + 1]
    ensures |buckets| == |ms|
    ensures forall i :: 0 <= i < |ms| ==>
      buckets[i].start == ms[i] && buckets[i].end == NextMonthFirst(ms[i])
  {
    buckets := [];
    var i := 0;
    while i < |ms|
      invariant 0 <= i <= |ms| && |buckets| == i
      invariant forall j :: 0 <= j < i ==>
        buckets[j].start == ms[j] && buckets[j].end == NextMonthFirst(ms[j])
    {
      var end: Date;
      if i < |ms| - 1 {
        end := ms[i + 1];
      } else {
        end := FirstOfMonth(AddDays(ms[i], 31));
        ThirtyOneDaysLandInNextMonth(ms[i]);
      }
      buckets := buckets + [Bucket(ms[i], end)];
      i := i + 1;
    }
  }

  /** Consecutive buckets leave no gap and do not overlap. */
  lemma BucketsTile(buckets: seq<Bucket>, ms: seq<Date>)
    requires |buckets| == |ms|
    requires forall i :: 0 <= i < |ms| ==> Valid(ms[i]) && ms[i].day == 1
    requires forall i :: 0 <= i < |ms| - 1 ==> NextMonthFirst(ms[i]) == ms[i + 1]
    requires forall i :: 0 <= i < |ms| ==> buckets[i].start == ms[i] && buckets[i].end == NextMonthFirst(ms[i])
    ensures forall i :: 0 <= i < |buckets| - 1 ==> buckets[i].end == buckets[i + 1].start
    ensures forall i :: 0 <= i < |buckets| ==> Before(buckets[i].start, buckets[i].end)
  {
    forall i | 0 <= i < |buckets| ensures Before(buckets[i].start, buckets[i].end) {
      var d := ms[i];
      assert MonthIndex(NextMonthFirst(d)) == MonthIndex(d) + 1;
    }
  }

  // ---------------------------------------------------------------------
  // Backup download
  // ---------------------------------------------------------------------

  /** The longest suffix of `s` without a '/'. */
  function TailSegment(s: string): (r: string)
    ensures |r| <= |s| && r == s[|s| - |r|..]
    ensures '/' !in r
    ensures |r| < |s| ==> s[|s| - |r| - 1] == '/'
  {
    if s == [] || s[|s| - 1] == '/' then []
    else
      var front := TailSegment(s[..|s| - 1]);
      front + [s[|s| - 1]]
  }

  /**
   * Path(s).name for a POSIX path: the last component once empty and "."
   * components are dropped, or "" when none is left.
   */
  function PathName(s: string): (r: string)
    ensures '/' !in r
    ensures r != "."
    decreases |s|
  {
    var seg := TailSegment(s);
    if seg != "" && seg != "." then seg
    else if |seg| == |s| then ""
    else PathName(s[..|s| - |seg| - 1])
  }

  /** A name without separators is its own last component. */
  lemma PathNameOfPlainName(s: string)
    requires '/' !in s && s != "" && s != "."
    ensures PathName(s) == s
  {
    assert TailSegment(s) == s;
  }

  /** Sanitising keeps the parent-directory name "..". */
  lemma PathNameKeepsDotDot()
    ensures PathName("a/..") == ".."
  {
    assert TailSegment("a/..") == "..";
  }

  /** What the server's file system holds at a path. */
  datatype Entry = Absent | File | Directory

  datatype Download =
    | NotSpecified           // Http404('Backup file not specified')
    | FileNotFound           // Http404('Backup file not found')
    | OpenFails(path: string) // open() raises IsADirectoryError: a server error, nothing served
    | Serve(path: string, filename: string)

  /** Path('backups') / name. */
  function BackupPath(name: string): string {
    if name == "" then "backups" else "backups/" + name
  }

  /**
   * bossin_backup_download; `disk` stands for the server's file system.
   * Path.exists holds for a file and for a directory alike, and open() then
   * fails on a directory.
   */
  function BackupDownload(param: Option<string>, disk: string -> Entry): (d: Download)
    ensures param.None? || param == Some("") ==> d == NotSpecified
    ensures param.Some? && param.value != "" ==>
      var path := BackupPath(PathName(param.value));
      && (d == FileNotFound <==> disk(path) == Absent)
      && (d == OpenFails(path) <==> disk(path) == Directory)
      && (d.Serve? <==> disk(path) == File)
    ensures d.Serve? ==> d.filename == PathName(param.value) && d.path == BackupPath(d.filename)
    ensures d.Serve? ==> '/' !in d.filename && disk(d.path) == File
  {
    if param.None? || param.value == "" then NotSpecified
    else
      var name := PathName(param.value);
      var path := BackupPath(name);
      match disk(path)
      case Absent => FileNotFound
      case Directory => OpenFails(path)
      case File => Serve(path, name)
  }

  /**
   * What passes the exists check is "backups" itself (a name whose last
   * component is empty), its parent "backups/..", or a name directly inside
   * "backups/".
   */
  lemma ServedPathStaysInBackups(param: Option<string>, disk: string -> Entry)
    ensures var d := BackupDownload(param, disk);
      d.Serve? || d.OpenFails? ==>
        || d.path == "backups"
        || d.path == "backups/.."
        || (IsPrefix("backups/", d.path) && '/' !in d.path[8..] && d.path[8..] != "." && d.path[8..] != "..")
  {
    var d := BackupDownload(param, disk);
    if d.Serve? || d.OpenFails? {
      var name := PathName(param.value);
      if name != "" {
        assert BackupPath(name)[8..] == name;
      }
    }
  }

  /**
   * On a file system where "backups" and its parent are directories, as they
   * are wherever they exist, only a file directly inside "backups/" is served.
   */
  lemma OnlyFilesInsideBackupsAreServed(param: Option<string>, disk: string -> Entry)
    requires disk("backups") != File && disk("backups/..") != File
    ensures var d := BackupDownload(param, disk);
      d.Serve? ==> IsPrefix("backups/", d.path) && '/' !in d.path[8..] && d.path[8..] != "." && d.path[8..] != ".."
  {
    ServedPathStaysInBackups(param, disk);
  }

  /**
   * "a/.." sanitises to "..", so the request reaches the parent of the backups
   * directory: it passes the exists check and then fails to open.
   */
  lemma DotDotReachesParent(disk: string -> Entry)
    requires disk("backups/..") == Directory
    ensures BackupDownload(Some("a/.."), disk) == OpenFails("backups/..")
  {
    PathNameKeepsDotDot();
    assert BackupPath("..") == "backups/..";
  }

  // ---------------------------------------------------------------------
  // Category discounts
  // ---------------------------------------------------------------------

  /** The discount for one category: int() of the posted value ('35' when absent), 35 when that fails. */
  function Discount(post: map<string, string>, category: string): int {
    var key := "discount_" + category;
    ParseInt(if key in post then post[key] else "35").GetOr(35)
  }

  /** The map a loop builds by setting value(c) for each category c in turn. */
  function Collect(categories: seq<string>, value: string -> int): map<string, int>
    decreases |categories|
  {
    if categories == [] then map[]
    else
      var last := categories[|categories| - 1];
      Collect(categories[..|categories| - 1], value)[last := value(last)]
  }

  /** Every category gets an entry, each its own value, and nothing else gets one. */
  lemma {:induction false} CollectCoversCategories(categories: seq<string>, value: string -> int)
    ensures Collect(categories, value).Keys == set c | c in categories
    ensures forall c :: c in Collect(categories, value) ==> Collect(categories, value)[c] == value(c)
    decreases |categories|
  {
    if categories != [] {
      var front := categories[..|categories| - 1];
      var last := categories[|categories| - 1];
      CollectCoversCategories(front, value);
      assert categories == front + [last];
      assert (set c | c in categories) == (set c | c in front) + {last};
    }
  }

  /** The category discounts loop of bossin_themes_update. */
  method CategoryDiscounts(categories: seq<string>, post: map<string, string>) returns (d: map<string, int>)
    ensures d.Keys == set c | c in categories
    ensures forall c :: c in d ==> d[c] == Discount(post, c)
  {
    var discount := c => Discount(post, c);
    d := map[];
    var i := 0;
    while i < |categories|
      invariant 0 <= i <= |categories|
      invariant d == Collect(categories[..i], discount)
    {
      var category := categories[i];
      d := d[category := discount(category)];
      assert categories[..i + 1][..i] == categories[..i];
      i := i + 1;
    }
    assert categories[..i] == categories;
    CollectCoversCategories(categories, discount);
  }

  /** An absent field gives 35. */
  lemma DiscountDefault(post: map<string, string>, category: string)
    requires "discount_" + category !in post
    ensures Discount(post, category) == 35
  {
    ThirtyFiveParses();
  }

  lemma ThirtyFiveParses()
    ensures ParseInt("35") == Some(35)
  {
    assert NatToString(3) == "3";
    assert NatToString(35) == NatToString(3) + [DigitChar(5)];
    assert IntToString(35) == "35";
    ParseIntRoundTrip(35);
  }

  /** A posted integer is taken as it is. */
  lemma DiscountReadsInteger(post: map<string, string>, category: string, n: int)
    requires "discount_" + category in post && post["discount_" + category] == IntToString(n)
    ensures Discount(post, category) == n
  {
    ParseIntRoundTrip(n);
  }

  /** A posted value that is not an integer gives 35. */
  lemma DiscountFallback(post: map<string, string>, category: string)
    requires "discount_" + category in post && ParseInt(post["discount_" + category]) == None
    ensures Discount(post, category) == 35
  {
  }
}
