/**
 * The member table behind the dashboard and the daily-collection page: the
 * stored rows with nulls replaced by defaults, the search and status filters,
 * the four-way statistics, and the hand-written twenty-per-page paginator.
 * Money is integer cents.
 */
module Dashboard {
  import opened Wrappers
  import opened Text
  import opened Ledger

  /** A member row as stored; a null pledge or paid total is None. */
  datatype StoredMember = StoredMember(
    name: string, phone: Option<string>, email: Option<string>,
    pledge: Option<int>, paidTotal: Option<int>)

  /** A member row as the page lists it, with both amounts present. */
  datatype Listed = Listed(
    name: string, phone: Option<string>, email: Option<string>,
    pledge: int, paidTotal: int)

  /** The fields the ledger's derived properties read. */
  function AsMember(m: Listed): (r: Member)
    ensures r.name == m.name && r.pledge == m.pledge && r.paidTotal == m.paidTotal
  {
    Member(m.name, m.pledge, m.paidTotal)
  }

  /** A null pledge becomes 70,000.00 and a null paid total 0.00; everything else is kept. */
  function Normalise(m: StoredMember): (r: Listed)
    ensures r.name == m.name && r.phone == m.phone && r.email == m.email
    ensures m.pledge.Some? ==> r.pledge == m.pledge.value
    ensures m.pledge.None? ==> r.pledge == DefaultPledge
    ensures m.paidTotal.Some? ==> r.paidTotal == m.paidTotal.value
    ensures m.paidTotal.None? ==> r.paidTotal == 0
  {
    Listed(m.name, m.phone, m.email, m.pledge.GetOr(DefaultPledge), m.paidTotal.GetOr(0))
  }

  /** Normalising changes a row exactly when one of its amounts is null. */
  lemma NormaliseOnlyFillsNulls(m: StoredMember)
    ensures var r := Normalise(m);
      StoredMember(r.name, r.phone, r.email, Some(r.pledge), Some(r.paidTotal)) == m
      <==> m.pledge.Some? && m.paidTotal.Some?
  {
  }

  /** The loading loop: every stored row, in order, with its nulls filled in. */
  method LoadMembers(stored: seq<StoredMember>) returns (members: seq<Listed>)
    ensures |members| == |stored|
    ensures forall i :: 0 <= i < |stored| ==> members[i] == Normalise(stored[i])
  {
    members := [];
    for i := 0 to |stored|
      invariant |members| == i
      invariant forall k :: 0 <= k < i ==> members[k] == Normalise(stored[k])
    {
      var m := stored[i];
      if m.pledge.None? || m.paidTotal.None? {
        if m.pledge.None? {
          m := m.(pledge := Some(DefaultPledge));
        }
        if m.paidTotal.None? {
          m := m.(paidTotal := Some(0));
        }
      }
      members := members + [Listed(m.name, m.phone, m.email, m.pledge.value, m.paidTotal.value)];
    }
  }

  /** A filter the page applies: the search box or the status drop-down. */
  datatype Criterion = Search(query: string) | Status(filter: string)

  /**
   * The search keeps a member whose name contains the query ignoring case,
   * whose phone contains it exactly, or whose email contains it ignoring case.
   */
  predicate SearchMatches(m: Listed, q: string)
  {
    Contains(Lower(m.name), Lower(q))
    || (m.phone.Some? && m.phone.value != "" && Contains(m.phone.value, q))
    || (m.email.Some? && m.email.value != "" && Contains(Lower(m.email.value), Lower(q)))
  }

  /** The five known status filters; any other value keeps nobody. */
  predicate StatusMatches(m: Listed, f: string)
  {
    (f == "incomplete" && m.paidTotal > 0 && m.paidTotal < m.pledge)
    || (f == "complete" && m.paidTotal >= m.pledge)
    || (f == "pledged" && m.pledge > DefaultPledge)
    || (f == "not_started" && m.paidTotal == 0)
    || (f == "exceeded" && m.paidTotal > m.pledge)
  }

  predicate Holds(c: Criterion, m: Listed)
  {
    match c
    case Search(q) => SearchMatches(m, q)
    case Status(f) => StatusMatches(m, f)
  }

  /** The members that satisfy the criterion, in their original order. */
  function Keep(ms: seq<Listed>, c: Criterion): (r: seq<Listed>)
    ensures |r| <= |ms|
  {
    if ms == [] then []
    else Keep(ms[..|ms| - 1], c) + (if Holds(c, ms[|ms| - 1]) then [ms[|ms| - 1]] else [])
  }

  /** Filtering a concatenation filters each part: the order of the survivors is kept. */
  lemma {:induction false} KeepConcat(a: seq<Listed>, b: seq<Listed>, c: Criterion)
    ensures Keep(a + b, c) == Keep(a, c) + Keep(b, c)
    decreases |b|
  {
    if b != [] {
      var b' := b[..|b| - 1];
      assert (a + b)[..|a + b| - 1] == a + b';
      assert (a + b)[|a + b| - 1] == b[|b| - 1];
      KeepConcat(a, b', c);
    } else {
      assert a + b == a;
    }
  }

  /** A member survives exactly when it was there and satisfies the criterion. */
  lemma {:induction false} KeepMembers(ms: seq<Listed>, c: Criterion, x: Listed)
    ensures x in Keep(ms, c) <==> x in ms && Holds(c, x)
  {
    if ms != [] {
      var init := ms[..|ms| - 1];
      KeepMembers(init, c, x);
      assert ms == init + [ms[|ms| - 1]];
    }
  }

  /** When the criterion holds for nobody, nobody survives. */
  lemma {:induction false} KeepNone(ms: seq<Listed>, c: Criterion)
    requires forall i :: 0 <= i < |ms| ==> !Holds(c, ms[i])
    ensures Keep(ms, c) == []
  {
    if ms != [] {
      KeepNone(ms[..|ms| - 1], c);
    }
  }

  /** The search loop; an empty query keeps everybody. */
  method SearchFilter(members: seq<Listed>, query: string) returns (r: seq<Listed>)
    ensures query == "" ==> r == members
    ensures query != "" ==> r == Keep(members, Search(query))
  {
    if query == "" || members == [] {
      return members;
    }
    r := [];
    for i := 0 to |members|
      invariant r == Keep(members[..i], Search(query))
    {
      var m := members[i];
      assert members[..i + 1][..i] == members[..i];
      if Contains(Lower(m.name), Lower(query))
         || (m.phone.Some? && m.phone.value != "" && Contains(m.phone.value, query))
         || (m.email.Some? && m.email.value != "" && Contains(Lower(m.email.value), Lower(query)))
      {
        r := r + [m];
      }
    }
    assert members[..|members|] == members;
  }

  /** The status loop: one elif chain per member; an empty filter keeps everybody. */
  method StatusFilter(members: seq<Listed>, filter: string) returns (r: seq<Listed>)
    ensures filter == "" ==> r == members
    ensures filter != "" ==> r == Keep(members, Status(filter))
  {
    if filter == "" || members == [] {
      return members;
    }
    r := [];
    for i := 0 to |members|
      invariant r == Keep(members[..i], Status(filter))
    {
      var m := members[i];
      assert members[..i + 1][..i] == members[..i];
      if filter == "incomplete" && m.paidTotal > 0 && m.paidTotal < m.pledge {
        r := r + [m];
      } else if filter == "complete" && m.paidTotal >= m.pledge {
        r := r + [m];
      } else if filter == "pledged" && m.pledge > DefaultPledge {
        r := r + [m];
      } else if filter == "not_started" && m.paidTotal == 0 {
        r := r + [m];
      } else if filter == "exceeded" && m.paidTotal > m.pledge {
        r := r + [m];
      }
    }
    assert members[..|members|] == members;
  }

  /** Each status filter keeps the members whose ledger property holds; "complete" includes the exceeded. */
  lemma StatusFiltersAgreeWithLedger(m: Listed)
    ensures StatusMatches(m, "complete") <==> IsComplete(AsMember(m))
    ensures StatusMatches(m, "incomplete") <==> IsIncomplete(AsMember(m))
    ensures StatusMatches(m, "not_started") <==> NotStarted(AsMember(m))
    ensures StatusMatches(m, "exceeded") <==> HasExceeded(AsMember(m))
    ensures StatusMatches(m, "exceeded") ==> StatusMatches(m, "complete")
  {
  }

  /** A filter value other than the five known ones empties the list. */
  lemma UnknownFilterKeepsNobody(members: seq<Listed>, filter: string)
    requires filter !in {"incomplete", "complete", "pledged", "not_started", "exceeded"}
    ensures Keep(members, Status(filter)) == []
  {
    KeepNone(members, Status(filter));
  }

  /** The four statistics buckets, tested in this order. */
  datatype Bucket = NotPaid | PartlyPaid | FullyPaid | OverPaid

  function BucketOf(m: Listed): Bucket
  {
    if m.paidTotal == 0 then NotPaid
    else if m.paidTotal < m.pledge then PartlyPaid
    else if m.paidTotal == m.pledge then FullyPaid
    else OverPaid
  }

  /** For stored values the bucket is the one the member's status label names. */
  lemma BucketMatchesStatus(m: Listed)
    requires FieldsValid(AsMember(m))
    ensures BucketOf(m) == NotPaid <==> StatusDisplay(AsMember(m)) == "Not Started"
    ensures BucketOf(m) == PartlyPaid <==> StatusDisplay(AsMember(m)) == "Incomplete"
    ensures BucketOf(m) == FullyPaid <==> StatusDisplay(AsMember(m)) == "Complete"
    ensures BucketOf(m) == OverPaid <==> StatusDisplay(AsMember(m)) == "Exceeded"
  {
    StatusPartition(AsMember(m));
  }

  function CountBucket(ms: seq<Listed>, b: Bucket): (n: nat)
    ensures n <= |ms|
  {
    if ms == [] then 0
    else CountBucket(ms[..|ms| - 1], b) + (if BucketOf(ms[|ms| - 1]) == b then 1 else 0)
  }

  function TotalPledged(ms: seq<Listed>): int
  {
    if ms == [] then 0 else TotalPledged(ms[..|ms| - 1]) + ms[|ms| - 1].pledge
  }

  function TotalCollected(ms: seq<Listed>): int
  {
    if ms == [] then 0 else TotalCollected(ms[..|ms| - 1]) + ms[|ms| - 1].paidTotal
  }

  /** Every member lands in exactly one bucket. */
  lemma {:induction false} BucketsPartition(ms: seq<Listed>)
    ensures CountBucket(ms, NotPaid) + CountBucket(ms, PartlyPaid)
          + CountBucket(ms, FullyPaid) + CountBucket(ms, OverPaid) == |ms|
  {
    if ms != [] {
      BucketsPartition(ms[..|ms| - 1]);
    }
  }

  datatype Stats = Stats(
    totalPledged: int, totalCollected: int,
    notPaid: nat, incomplete: nat, complete: nat, exceeded: nat)

  /** The statistics loop: the two sums and the four bucket counts of the listed members. */
  method Statistics(ms: seq<Listed>) returns (s: Stats)
    ensures s.totalPledged == TotalPledged(ms) && s.totalCollected == TotalCollected(ms)
    ensures s.notPaid == CountBucket(ms, NotPaid) && s.incomplete == CountBucket(ms, PartlyPaid)
    ensures s.complete == CountBucket(ms, FullyPaid) && s.exceeded == CountBucket(ms, OverPaid)
    ensures s.notPaid + s.incomplete + s.complete + s.exceeded == |ms|
  {
    var pledged, collected := 0, 0;
    var notPaid, incomplete, complete, exceeded := 0, 0, 0, 0;
    for i := 0 to |ms|
      invariant pledged == TotalPledged(ms[..i]) && collected == TotalCollected(ms[..i])
      invariant notPaid == CountBucket(ms[..i], NotPaid) && incomplete == CountBucket(ms[..i], PartlyPaid)
      invariant complete == CountBucket(ms[..i], FullyPaid) && exceeded == CountBucket(ms[..i], OverPaid)
    {
      var m := ms[i];
      assert ms[..i + 1][..i] == ms[..i];
      pledged := pledged + m.pledge;
      collected := collected + m.paidTotal;
      if m.paidTotal == 0 {
        notPaid := notPaid + 1;
      } else if m.paidTotal < m.pledge {
        incomplete := incomplete + 1;
      } else if m.paidTotal == m.pledge {
        complete := complete + 1;
      } else {
        exceeded := exceeded + 1;
      }
    }
    assert ms[..|ms|] == ms;
    BucketsPartition(ms);
    s := Stats(pledged, collected, notPaid, incomplete, complete, exceeded);
  }

  const PageSize: nat := 20

  /** The number of pages: the count divided by the page size, rounded up. */
  function NumPages(count: nat, perPage: nat): (r: nat)
    requires perPage > 0
    ensures r * perPage >= count
    ensures r > 0 ==> (r - 1) * perPage < count
    ensures r == 0 <==> count == 0
  {
    var r := (count + perPage - 1) / perPage;
    assert r * perPage <= count + perPage - 1 < (r + 1) * perPage;
    r
  }

  /** The `page` parameter read with int(); absent or unreadable means page 1. */
  function PageParam(param: Option<string>): int
  {
    match param
    case None => 1
    case Some(s) => ParseInt(s).GetOr(1)
  }

  /** A page number written as an integer is read as it is. */
  lemma PageParamReadsInteger(n: int)
    ensures PageParam(Some(IntToString(n))) == n
  {
    ParseIntRoundTrip(n);
  }

  /** No parameter, or one int() refuses, means page 1. */
  lemma PageParamDefaultsToFirst(param: Option<string>)
    requires param.None? || ParseInt(param.value).None?
    ensures PageParam(param) == 1
  {
  }

  /** A page below 1 becomes 1; one beyond the last becomes the last, when there is a last. */
  function ClampPage(p: int, totalPages: nat): (r: int)
    ensures r >= 1
    ensures totalPages > 0 ==> r <= totalPages
    ensures 1 <= p && (p <= totalPages || totalPages == 0) ==> r == p
    ensures p < 1 ==> r == 1
    ensures totalPages > 0 && p > totalPages ==> r == totalPages
  {
    if p < 1 then 1
    else if p > totalPages && totalPages > 0 then totalPages
    else p
  }

  /** Python's reading of a slice bound: negative counts from the end, and both ends are cut to the list. */
  function SliceBound(i: int, n: nat): (r: nat)
    ensures r <= n
    ensures 0 <= i <= n ==> r == i
  {
    if i < 0 then (if n + i < 0 then 0 else n + i)
    else if i > n then n
    else i
  }

  /** Python's s[a:b]. */
  function Slice<T>(s: seq<T>, a: int, b: int): (r: seq<T>)
    ensures |r| <= |s|
    ensures 0 <= a <= b <= |s| ==> r == s[a..b]
  {
    var lo := SliceBound(a, |s|);
    var hi := SliceBound(b, |s|);
    if hi <= lo then [] else s[lo..hi]
  }

  /** The paginator's page object: its number, its slice of the list, and the number of pages. */
  datatype Page<T> = Page(number: int, items: seq<T>, numPages: nat)

  /** SimplePaginator(items, perPage).get_page(number). */
  function GetPage<T>(items: seq<T>, number: int, perPage: nat): (pg: Page<T>)
    requires perPage > 0
    ensures pg.number == number && pg.numPages == NumPages(|items|, perPage)
    ensures |pg.items| <= perPage
  {
    var start := (number - 1) * perPage;
    var r := Slice(items, start, start + perPage);
    assert |r| <= perPage;
    Page(number, r, NumPages(|items|, perPage))
  }

  predicate HasPrevious<T>(pg: Page<T>) { pg.number > 1 }

  predicate HasNext<T>(pg: Page<T>) { pg.number < pg.numPages }

  predicate HasOtherPages<T>(pg: Page<T>) { pg.numPages > 1 }

  lemma MulMonotone(x: int, y: int, k: nat)
    requires x <= y
    ensures x * k <= y * k
  {
  }

  /** The members from lo up to hi, cut to the list. */
  function Window<T>(items: seq<T>, lo: nat, hi: nat): seq<T>
    requires lo <= hi
  {
    if hi <= |items| then items[lo..hi] else if lo <= |items| then items[lo..] else []
  }

  /** Page k is the window from (k-1)*perPage to k*perPage. */
  lemma PageIsWindow<T>(items: seq<T>, k: int, perPage: nat)
    requires perPage > 0 && k >= 1
    ensures (k - 1) * perPage >= 0 && k * perPage == (k - 1) * perPage + perPage
    ensures GetPage(items, k, perPage).items == Window(items, (k - 1) * perPage, (k - 1) * perPage + perPage)
    ensures GetPage(items, k, perPage).items == Window(items, (k - 1) * perPage, k * perPage)
  {
    MulMonotone(0, k - 1, perPage);
  }

  /**
   * A page within range holds the members from (p-1)*perPage up to p*perPage,
   * is never empty, and has a next page exactly when members remain after it.
   */
  lemma PageInRange<T>(items: seq<T>, p: int, perPage: nat)
    requires perPage > 0 && 1 <= p <= NumPages(|items|, perPage)
    ensures 0 <= (p - 1) * perPage < p * perPage
    ensures var pg := GetPage(items, p, perPage);
      && pg.items == Window(items, (p - 1) * perPage, p * perPage)
      && |pg.items| > 0
      && (HasNext(pg) <==> p * perPage < |items|)
      && (HasPrevious(pg) <==> p > 1)
  {
    var pg := GetPage(items, p, perPage);
    var lo, hi := (p - 1) * perPage, p * perPage;
    PageIsWindow(items, p, perPage);
    assert pg.items == Window(items, lo, hi);
    PageBounds(|items|, p, perPage);
    WindowNonEmpty(items, lo, hi);
    assert pg.number == p && pg.numPages == NumPages(|items|, perPage);
  }

  lemma WindowNonEmpty<T>(items: seq<T>, lo: nat, hi: nat)
    requires lo < hi && lo < |items|
    ensures |Window(items, lo, hi)| > 0
  {
  }

  /** The first member of page p exists, and page p is not the last exactly when members remain after it. */
  lemma PageBounds(count: nat, p: int, perPage: nat)
    requires perPage > 0 && 1 <= p <= NumPages(count, perPage)
    ensures (p - 1) * perPage < count
    ensures p < NumPages(count, perPage) <==> p * perPage < count
  {
    var n := NumPages(count, perPage);
    MulMonotone(p - 1, n - 1, perPage);
    if p < n {
      MulMonotone(p, n - 1, perPage);
    }
  }

  /** Pages 1 to k laid end to end. */
  function PagesUpTo<T>(items: seq<T>, perPage: nat, k: nat): seq<T>
    requires perPage > 0
  {
    if k == 0 then [] else PagesUpTo(items, perPage, k - 1) + GetPage(items, k, perPage).items
  }

  lemma {:induction false} PagesUpToPrefix<T>(items: seq<T>, perPage: nat, k: nat)
    requires perPage > 0
    ensures k * perPage >= 0
    ensures PagesUpTo(items, perPage, k) == Window(items, 0, k * perPage)
  {
    MulMonotone(0, k, perPage);
    if k > 0 {
      PagesUpToPrefix(items, perPage, k - 1);
      PageIsWindow(items, k, perPage);
      WindowJoin(items, (k - 1) * perPage, k * perPage);
    }
  }

  /** Two adjacent windows from the start make one. */
  lemma WindowJoin<T>(items: seq<T>, lo: nat, hi: nat)
    requires lo <= hi
    ensures Window(items, 0, lo) + Window(items, lo, hi) == Window(items, 0, hi)
  {
    if lo >= |items| {
    } else if hi <= |items| {
      assert items[..lo] + items[lo..hi] == items[..hi];
    } else {
      assert items[..lo] + items[lo..] == items;
    }
  }

  /** Pages 1 to num_pages together list every member exactly once, in order. */
  lemma PagesCoverList<T>(items: seq<T>, perPage: nat)
    requires perPage > 0
    ensures PagesUpTo(items, perPage, NumPages(|items|, perPage)) == items
  {
    var n := NumPages(|items|, perPage);
    PagesUpToPrefix(items, perPage, n);
    assert n * perPage >= |items|;
  }

  /** With no members at all, the requested page number is kept: page 3 of an empty list reports a previous page. */
  lemma EmptyListKeepsRequestedPage(none: seq<Listed>, p: int)
    requires none == [] && p > 1
    ensures var pg := GetPage(none, ClampPage(p, NumPages(0, PageSize)), PageSize);
      pg.number == p && pg.items == [] && HasPrevious(pg) && !HasNext(pg)
  {
  }

  /** What the dashboard hands to its template. */
  datatype DashboardContext = DashboardContext(page: Page<Listed>, stats: Stats)

  /**
   * The dashboard: load, search, filter, count, then cut out the requested
   * page; the statistics describe every filtered member, not just the page.
   */
  method DashboardView(stored: seq<StoredMember>, search: string, filter: string, pageParam: Option<string>)
    returns (ctx: DashboardContext)
    ensures var listed := seq(|stored|, i requires 0 <= i < |stored| => Normalise(stored[i]));
      var searched := if search == "" then listed else Keep(listed, Search(search));
      var shown := if filter == "" then searched else Keep(searched, Status(filter));
      && ctx.stats == Stats(TotalPledged(shown), TotalCollected(shown),
                            CountBucket(shown, NotPaid), CountBucket(shown, PartlyPaid),
                            CountBucket(shown, FullyPaid), CountBucket(shown, OverPaid))
      && ctx.stats.notPaid + ctx.stats.incomplete + ctx.stats.complete + ctx.stats.exceeded == |shown|
      && ctx.page == GetPage(shown, ClampPage(PageParam(pageParam), NumPages(|shown|, PageSize)), PageSize)
  {
    var members := LoadMembers(stored);
    assert members == seq(|stored|, i requires 0 <= i < |stored| => Normalise(stored[i]));
    members := SearchFilter(members, search);
    members := StatusFilter(members, filter);
    var stats := Statistics(members);
    var pageNumber := PageParam(pageParam);
    var totalPages := NumPages(|members|, PageSize);
    if pageNumber < 1 {
      pageNumber := 1;
    } else if pageNumber > totalPages && totalPages > 0 {
      pageNumber := totalPages;
    }
    ctx := DashboardContext(GetPage(members, pageNumber, PageSize), stats);
  }
}
