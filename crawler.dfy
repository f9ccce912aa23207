/**
 * The crawl driver: grouping new notices by host, fetching each with retries,
 * and the end-to-end run that collects new notices and keeps the fetched ones.
 */
module Crawler {
  import opened Wrappers
  import opened Text
  import opened NoticeStore
  import opened Fetch

  // ------------------------------------------------------------------ host of a URL

  /** Leading characters `urlsplit` strips: C0 controls and space. */
  function TrimControls(s: string): (r: string)
    ensures r == [] || r[0] > ' '
  {
    if s != [] && s[0] <= ' ' then TrimControls(s[1..]) else s
  }

  predicate IsUnsafe(c: char) {
    c == '\t' || c == '\r' || c == '\n'
  }

  /** `urlsplit` deletes tab, CR and LF wherever they occur. */
  function RemoveUnsafe(s: string): (r: string)
    ensures forall c | c in r :: !IsUnsafe(c)
    ensures (forall c | c in s :: !IsUnsafe(c)) ==> r == s
  {
    if s == [] then []
    else if IsUnsafe(s[0]) then RemoveUnsafe(s[1..])
    else [s[0]] + RemoveUnsafe(s[1..])
  }

  predicate IsAsciiAlpha(c: char) {
    'a' <= c <= 'z' || 'A' <= c <= 'Z'
  }

  predicate IsSchemeChar(c: char) {
    IsAsciiAlpha(c) || IsDigit(c) || c == '+' || c == '-' || c == '.'
  }

  /** What follows the scheme and its colon, or the whole text when there is no valid scheme. */
  function AfterScheme(u: string): string {
    match Find(u, ":")
    case None => u
    case Some(i) =>
      if i > 0 && IsAsciiAlpha(u[0]) && (forall k | 0 <= k < i :: IsSchemeChar(u[k])) then u[i + 1..] else u
  }

  /** The authority: everything up to the first '/', '?' or '#'. */
  function Authority(s: string): (r: string)
    ensures StartsWith(s, r)
    ensures forall c | c in r :: c != '/' && c != '?' && c != '#'
  {
    if s == [] || s[0] in "/?#" then [] else [s[0]] + Authority(s[1..])
  }

  /** `urlparse(url).netloc`. */
  function Netloc(url: string): string {
    var rest := AfterScheme(RemoveUnsafe(TrimControls(url)));
    if |rest| >= 2 && rest[..2] == "//" then Authority(rest[2..]) else ""
  }

  lemma {:induction false} AuthorityOfHost(host: string, path: string)
    requires forall c | c in host :: c != '/' && c != '?' && c != '#'
    requires path == [] || path[0] == '/'
    ensures Authority(host + path) == host
  {
    if host != [] {
      assert host[0] in host;
      assert (host + path)[1..] == host[1..] + path;
      assert forall c | c in host[1..] :: c in host;
      AuthorityOfHost(host[1..], path);
    }
  }

  lemma AfterValidScheme(scheme: string, tail: string)
    requires scheme != [] && IsAsciiAlpha(scheme[0]) && forall c | c in scheme :: IsSchemeChar(c)
    ensures AfterScheme(scheme + ":" + tail) == tail
  {
    var u := scheme + ":" + tail;
    assert ':' !in scheme;
    FindAfter(scheme, ":", tail);
    forall k | 0 <= k < |scheme| ensures IsSchemeChar(u[k]) {
      assert u[k] == scheme[k] && scheme[k] in scheme;
    }
    assert u[|scheme| + 1..] == tail;
  }

  /** The host of `scheme://host/path` is `host`. */
  lemma NetlocOfUrl(scheme: string, host: string, path: string)
    requires scheme != [] && IsAsciiAlpha(scheme[0]) && forall c | c in scheme :: IsSchemeChar(c)
    requires forall c | c in host :: c != '/' && c != '?' && c != '#' && !IsUnsafe(c)
    requires forall c | c in path :: !IsUnsafe(c)
    requires path == [] || path[0] == '/'
    ensures Netloc(scheme + "://" + host + path) == host
  {
    var tail := "//" + host + path;
    var url := scheme + ":" + tail;
    assert url == scheme + "://" + host + path;
    UrlIsClean(scheme, tail);
    AfterValidScheme(scheme, tail);
    HostAfterSlashes(host, path);
  }

  /** Such a URL has nothing for `urlsplit` to strip or delete. */
  lemma UrlIsClean(scheme: string, tail: string)
    requires scheme != [] && IsAsciiAlpha(scheme[0]) && forall c | c in scheme :: IsSchemeChar(c)
    requires forall c | c in tail :: !IsUnsafe(c)
    ensures RemoveUnsafe(TrimControls(scheme + ":" + tail)) == scheme + ":" + tail
  {
    var url := scheme + ":" + tail;
    assert url[0] == scheme[0];
    forall c | c in url ensures !IsUnsafe(c) {
      assert c in scheme || c == ':' || c in tail;
    }
  }

  lemma HostAfterSlashes(host: string, path: string)
    requires forall c | c in host :: c != '/' && c != '?' && c != '#'
    requires path == [] || path[0] == '/'
    ensures var tail := "//" + host + path; |tail| >= 2 && tail[..2] == "//" && Authority(tail[2..]) == host
  {
    var tail := "//" + host + path;
    assert tail[2..] == host + path;
    AuthorityOfHost(host, path);
  }

  // ------------------------------------------------------------------ grouping by host

  /** Hosts whose notices are each fetched in a task of their own. */
  const FastDomains: set<string> := {"scatch.ssu.ac.kr"}

  function DomainOf(it: NewItem): string {
    Netloc(it.link)
  }

  predicate IsFast(it: NewItem) {
    DomainOf(it) in FastDomains
  }

  /** The notices on fast hosts, in order. */
  function FastOf(items: seq<NewItem>): (r: seq<NewItem>)
    ensures forall it | it in r :: it in items && IsFast(it)
  {
    if items == [] then []
    else
      var init := items[..|items| - 1];
      var x := items[|items| - 1];
      if IsFast(x) then FastOf(init) + [x] else FastOf(init)
  }

  /** The notices of host `d` when it is not a fast host, in order. */
  function GroupOf(items: seq<NewItem>, d: string): (r: seq<NewItem>)
    ensures forall it | it in r :: it in items && !IsFast(it) && DomainOf(it) == d
  {
    if items == [] then []
    else
      var init := items[..|items| - 1];
      var x := items[|items| - 1];
      if !IsFast(x) && DomainOf(x) == d then GroupOf(init, d) + [x] else GroupOf(init, d)
  }

  predicate Distinct<T(==)>(s: seq<T>) {
    forall i, j :: 0 <= i < j < |s| ==> s[i] != s[j]
  }

  /** The hosts that are not fast, each once, in order of first appearance (a dict's key order). */
  function DomainOrder(items: seq<NewItem>): (ds: seq<string>)
    ensures Distinct(ds)
  {
    if items == [] then []
    else
      var init := items[..|items| - 1];
      var x := items[|items| - 1];
      var ds := DomainOrder(init);
      if IsFast(x) || DomainOf(x) in ds then ds else ds + [DomainOf(x)]
  }

  /** A host is listed exactly when some notice that is not fast comes from it. */
  lemma {:induction false} DomainOrderMembers(items: seq<NewItem>)
    ensures forall d :: d in DomainOrder(items) <==> exists it :: it in items && !IsFast(it) && DomainOf(it) == d
  {
    if items != [] {
      var init := items[..|items| - 1];
      assert items == init + [items[|items| - 1]];
      DomainOrderMembers(init);
    }
  }

  lemma {:induction false} GroupOfUnseen(items: seq<NewItem>, d: string)
    requires d !in DomainOrder(items)
    ensures GroupOf(items, d) == []
  {
    if items != [] {
      var init := items[..|items| - 1];
      assert items == init + [items[|items| - 1]];
      GroupOfUnseen(init, d);
    }
  }

  /** How one more notice changes the fast list, the host order and the groups. */
  lemma CategorizeStep(init: seq<NewItem>, x: NewItem)
    ensures FastOf(init + [x]) == FastOf(init) + (if IsFast(x) then [x] else [])
    ensures DomainOrder(init + [x]) ==
            DomainOrder(init) + (if IsFast(x) || DomainOf(x) in DomainOrder(init) then [] else [DomainOf(x)])
    ensures forall d ::
              GroupOf(init + [x], d) == GroupOf(init, d) + (if !IsFast(x) && DomainOf(x) == d then [x] else [])
  {
    assert (init + [x])[..|init|] == init;
  }

  /** What categorising the notices `seen` leaves behind: the fast ones, the hosts in
      order of first appearance, and each host's group. */
  ghost predicate Categorized(groups: map<string, seq<NewItem>>, order: seq<string>, fast: seq<NewItem>,
                              seen: seq<NewItem>) {
    && fast == FastOf(seen)
    && order == DomainOrder(seen)
    && (forall d :: d in groups <==> d in order)
    && (forall d | d in groups :: groups[d] == GroupOf(seen, d))
  }

  /** A fast notice joins the fast list. */
  lemma CategorizedFast(groups: map<string, seq<NewItem>>, order: seq<string>, fast: seq<NewItem>,
                        seen: seq<NewItem>, x: NewItem)
    requires Categorized(groups, order, fast, seen) && IsFast(x)
    ensures Categorized(groups, order, fast + [x], seen + [x])
  {
    CategorizeStep(seen, x);
  }

  /** A notice from a host already seen joins that host's group. */
  lemma CategorizedKnown(groups: map<string, seq<NewItem>>, order: seq<string>, fast: seq<NewItem>,
                         seen: seq<NewItem>, x: NewItem)
    requires Categorized(groups, order, fast, seen) && !IsFast(x) && DomainOf(x) in groups
    ensures Categorized(groups[DomainOf(x) := groups[DomainOf(x)] + [x]], order, fast, seen + [x])
  {
    CategorizeStep(seen, x);
  }

  /** A notice from a new host starts that host's group and puts the host last in the order. */
  lemma CategorizedNew(groups: map<string, seq<NewItem>>, order: seq<string>, fast: seq<NewItem>,
                       seen: seq<NewItem>, x: NewItem)
    requires Categorized(groups, order, fast, seen) && !IsFast(x) && DomainOf(x) !in groups
    ensures Categorized(groups[DomainOf(x) := [x]], order + [DomainOf(x)], fast, seen + [x])
  {
    CategorizeStep(seen, x);
    GroupOfUnseen(seen, DomainOf(x));
  }

  /** `categorize_notifications`: splits notices into fast ones and per-host groups. */
  method CategorizeNotifications(items: seq<NewItem>)
    returns (groups: map<string, seq<NewItem>>, order: seq<string>, fast: seq<NewItem>)
    ensures fast == FastOf(items)
    ensures order == DomainOrder(items)
    ensures forall d :: d in groups <==> d in order
    ensures forall d | d in groups :: groups[d] == GroupOf(items, d)
  {
    groups, order, fast := map[], [], [];
    for i := 0 to |items|
      invariant Categorized(groups, order, fast, items[..i])
    {
      var x := items[i];
      assert items[..i + 1] == items[..i] + [x];
      var domain := DomainOf(x);
      if domain in FastDomains {
        CategorizedFast(groups, order, fast, items[..i], x);
        fast := fast + [x];
      } else if domain in groups {
        CategorizedKnown(groups, order, fast, items[..i], x);
        groups := groups[domain := groups[domain] + [x]];
      } else {
        CategorizedNew(groups, order, fast, items[..i], x);
        groups := groups[domain := [x]];
        order := order + [domain];
      }
    }
    assert items[..|items|] == items;
  }

  /** The groups' notices one host after another. */
  function GroupsConcat(items: seq<NewItem>, ds: seq<string>): seq<NewItem> {
    if ds == [] then [] else GroupOf(items, ds[0]) + GroupsConcat(items, ds[1..])
  }

  /** Every notice in the order the crawl hands out work: fast ones, then host by host. */
  function Scheduled(items: seq<NewItem>): seq<NewItem> {
    FastOf(items) + GroupsConcat(items, DomainOrder(items))
  }

  lemma {:induction false} GroupsConcatGrow(init: seq<NewItem>, x: NewItem, ds: seq<string>)
    requires Distinct(ds)
    ensures multiset(GroupsConcat(init + [x], ds)) ==
            multiset(GroupsConcat(init, ds)) + (if !IsFast(x) && DomainOf(x) in ds then multiset{x} else multiset{})
  {
    var items := init + [x];
    assert items[..|items| - 1] == init;
    if ds != [] {
      DistinctTail(ds);
      GroupsConcatGrow(init, x, ds[1..]);
      assert DomainOf(x) in ds <==> DomainOf(x) == ds[0] || DomainOf(x) in ds[1..];
    }
  }

  /** The rest of a list without repeats has none either, and does not hold its head. */
  lemma DistinctTail<T>(ds: seq<T>)
    requires Distinct(ds) && ds != []
    ensures Distinct(ds[1..]) && ds[0] !in ds[1..]
  {
    forall i, j | 0 <= i < j < |ds[1..]| ensures ds[1..][i] != ds[1..][j] {
      assert ds[1..][i] == ds[i + 1] && ds[1..][j] == ds[j + 1];
    }
    forall k | 0 <= k < |ds[1..]| ensures ds[1..][k] != ds[0] {
      assert ds[1..][k] == ds[k + 1];
    }
  }

  lemma GroupsConcatSnoc(items: seq<NewItem>, ds: seq<string>, d: string)
    ensures GroupsConcat(items, ds + [d]) == GroupsConcat(items, ds) + GroupOf(items, d)
  {
    if ds != [] {
      assert (ds + [d])[1..] == ds[1..] + [d];
      GroupsConcatSnoc(items, ds[1..], d);
    }
  }

  /** The crawl hands out every new notice exactly once. */
  lemma {:induction false} ScheduledIsPermutation(items: seq<NewItem>)
    ensures multiset(Scheduled(items)) == multiset(items)
  {
    if items != [] {
      var init := items[..|items| - 1];
      var x := items[|items| - 1];
      assert items == init + [x];
      ScheduledIsPermutation(init);
      ScheduledSnoc(init, x);
    }
  }

  /** One more notice adds exactly itself to the schedule. */
  lemma ScheduledSnoc(init: seq<NewItem>, x: NewItem)
    ensures multiset(Scheduled(init + [x])) == multiset(Scheduled(init)) + multiset{x}
  {
    var ds := DomainOrder(init);
    CategorizeStep(init, x);
    GroupsConcatGrow(init, x, ds);
    if !IsFast(x) && DomainOf(x) !in ds {
      NewHostGroup(init, x);
    }
  }

  /** A notice from a host not seen before forms that host's group alone. */
  lemma NewHostGroup(init: seq<NewItem>, x: NewItem)
    requires !IsFast(x) && DomainOf(x) !in DomainOrder(init)
    ensures GroupsConcat(init + [x], DomainOrder(init) + [DomainOf(x)]) ==
            GroupsConcat(init + [x], DomainOrder(init)) + [x]
  {
    GroupsConcatSnoc(init + [x], DomainOrder(init), DomainOf(x));
    GroupOfUnseen(init, DomainOf(x));
    CategorizeStep(init, x);
  }

  // ------------------------------------------------------------------ fetching with retries

  const MaxRetries: nat := 2

  /** Pause between attempts, in milliseconds. */
  function RetryDelayMs(fast: bool): nat {
    if fast then 500 else 1000
  }

  /** A fetch record tagged with the notice's board id and category. */
  datatype CrawlResult = CrawlResult(record: FetchRecord, notificationId: int, category: string)

  function Tagged(item: NewItem, rec: FetchRecord): CrawlResult {
    CrawlResult(rec, item.notificationId, item.categoryTitle)
  }

  /** One call of `fetch_content` for a notice, on a given attempt. */
  type Fetcher = (NewItem, nat) -> FetchRecord

  /** The fetch step of this model: `fetch_content` with the notice's own content selector. */
  function ContentFetcher(net: Network, clean: string -> string): Fetcher {
    (it: NewItem, a: nat) => FetchContent(it, it.contentSelector, net, clean, a)
  }

  function Attempt(item: NewItem, fetch: Fetcher, a: nat): FetchRecord {
    fetch(item, a)
  }

  /** Which attempts succeed. */
  function Outcomes(item: NewItem, fetch: Fetcher): nat -> bool {
    (b: nat) => Attempt(item, fetch, b).success
  }

  /** How many attempts are made when attempt `a` is the next one, `ok(b)` telling whether
      attempt `b` succeeds. */
  function AttemptsFrom(ok: nat -> bool, a: nat): (n: nat)
    requires a <= MaxRetries
    ensures a < n <= MaxRetries + 1
    ensures forall b :: a <= b < n - 1 ==> !ok(b)
    ensures ok(n - 1) || n == MaxRetries + 1
    decreases MaxRetries - a
  {
    if ok(a) || a == MaxRetries then a + 1
    else AttemptsFrom(ok, a + 1)
  }

  /** Attempts stop at the first success, and there are at most `MaxRetries + 1`. */
  function AttemptsMade(item: NewItem, fetch: Fetcher): (n: nat)
    ensures 1 <= n <= MaxRetries + 1
    ensures forall b :: 0 <= b < n - 1 ==> !Attempt(item, fetch, b).success
    ensures Attempt(item, fetch, n - 1).success || n == MaxRetries + 1
  {
    var ok := Outcomes(item, fetch);
    var n := AttemptsFrom(ok, 0);
    assert ok(n - 1) == Attempt(item, fetch, n - 1).success;
    n
  }

  /** The record the last attempt produced: a success if any attempt succeeds. */
  function Retried(item: NewItem, fetch: Fetcher): (r: CrawlResult)
    ensures r.notificationId == item.notificationId && r.category == item.categoryTitle
    ensures r.record == Attempt(item, fetch, AttemptsMade(item, fetch) - 1)
  {
    var n := AttemptsMade(item, fetch);
    Tagged(item, Attempt(item, fetch, n - 1))
  }

  /** With `fetch_content` as the fetch step, the retried record keeps the notice's title and link. */
  lemma RetriedContent(item: NewItem, net: Network, clean: string -> string)
    ensures var r := Retried(item, ContentFetcher(net, clean));
            r.record.title == item.title && r.record.url == item.link
  {
  }

  /** The retried fetch succeeds exactly when one of the allowed attempts does. */
  lemma RetriedSucceedsIff(item: NewItem, fetch: Fetcher)
    ensures Retried(item, fetch).record.success <==>
            exists a :: 0 <= a <= MaxRetries && Attempt(item, fetch, a).success
  {
    var n := AttemptsMade(item, fetch);
    assert Retried(item, fetch).record == Attempt(item, fetch, n - 1);
    forall a | 0 <= a <= MaxRetries && Attempt(item, fetch, a).success
      ensures Attempt(item, fetch, n - 1).success
    {
      assert a >= n - 1;
    }
  }

  /**
   * `fetch_with_retry`: up to `MaxRetries + 1` attempts, stopping at the first success,
   * pausing between a failure and the next attempt.
   */
  method FetchWithRetry(item: NewItem, fast: bool, fetch: Fetcher)
    returns (res: CrawlResult, attempts: nat, sleptMs: nat)
    ensures attempts == AttemptsMade(item, fetch)
    ensures res == Retried(item, fetch)
    ensures sleptMs == (attempts - 1) * RetryDelayMs(fast)
  {
    var delay := RetryDelayMs(fast);
    sleptMs := 0;
    var a := 0;
    while true
      invariant 0 <= a <= MaxRetries
      invariant forall b :: 0 <= b < a ==> !Attempt(item, fetch, b).success
      invariant AttemptsMade(item, fetch) == AttemptsFrom(Outcomes(item, fetch), a)
      invariant sleptMs == a * delay
      decreases MaxRetries - a
    {
      var data := fetch(item, a);
      res := Tagged(item, data);
      if data.success || a == MaxRetries {
        attempts := a + 1;
        return;
      }
      sleptMs := sleptMs + delay;
      a := a + 1;
    }
  }

  /** `process_domain_group`: the group's notices fetched one after another. */
  method ProcessDomainGroup(domain: string, items: seq<NewItem>, fetch: Fetcher)
    returns (results: seq<CrawlResult>)
    ensures results == Results(items, fetch)
  {
    results := [];
    for i := 0 to |items|
      invariant results == Results(items[..i], fetch)
    {
      var r, _, _ := FetchWithRetry(items[i], false, fetch);
      ResultsSnoc(items, i, fetch);
      results := results + [r];
    }
    assert items[..|items|] == items;
  }

  /** The pool size: one worker per host group plus up to 20 for fast notices, at least one. */
  function WorkerCount(fastCount: nat, groupCount: nat): (w: nat)
    ensures w >= 1 && w >= groupCount
    ensures fastCount > 0 ==> w > groupCount
    ensures w <= groupCount + 20
    ensures w <= groupCount + fastCount || (groupCount == 0 && fastCount == 0 && w == 1)
  {
    var fastWorkers := if fastCount > 0 then (if fastCount < 20 then fastCount else 20) else 0;
    if groupCount + fastWorkers > 1 then groupCount + fastWorkers else 1
  }

  /**
   * `crawl_all_content`: fast notices each as a task, each host's group as one task,
   * results collected in submission order.
   */
  method CrawlAllContent(items: seq<NewItem>, fetch: Fetcher)
    returns (results: seq<CrawlResult>, workers: nat)
    ensures results == Results(Scheduled(items), fetch)
    ensures |results| == |items|
    ensures workers == WorkerCount(|FastOf(items)|, |DomainOrder(items)|)
  {
    var groups, order, fast := CategorizeNotifications(items);
    workers := WorkerCount(|fast|, |order|);
    results := [];
    for i := 0 to |fast|
      invariant results == Results(fast[..i], fetch)
    {
      var r, _, _ := FetchWithRetry(fast[i], true, fetch);
      ResultsSnoc(fast, i, fetch);
      results := results + [r];
    }
    assert fast[..|fast|] == fast;
    var groupResults := ProcessGroups(items, groups, order, fetch);
    ResultsAppend(fast, GroupsConcat(items, order), fetch);
    results := results + groupResults;
    ScheduledLength(items);
  }

  /** The host groups' tasks, in the order the hosts were first seen. */
  method ProcessGroups(items: seq<NewItem>, groups: map<string, seq<NewItem>>, order: seq<string>,
                       fetch: Fetcher)
    returns (results: seq<CrawlResult>)
    requires forall d | d in order :: d in groups && groups[d] == GroupOf(items, d)
    ensures results == Results(GroupsConcat(items, order), fetch)
  {
    results := [];
    for j := 0 to |order|
      invariant results == Results(GroupsConcat(items, order[..j]), fetch)
    {
      var domainResults := ProcessDomainGroup(order[j], groups[order[j]], fetch);
      ResultsAppend(GroupsConcat(items, order[..j]), groups[order[j]], fetch);
      GroupsDone(items, order, j);
      results := results + domainResults;
    }
    assert order[..|order|] == order;
  }

  lemma ScheduledLength(items: seq<NewItem>)
    ensures |Scheduled(items)| == |items|
  {
    ScheduledIsPermutation(items);
    assert |multiset(Scheduled(items))| == |multiset(items)|;
  }

  lemma GroupsDone(items: seq<NewItem>, order: seq<string>, j: nat)
    requires j < |order|
    ensures GroupsConcat(items, order[..j + 1]) == GroupsConcat(items, order[..j]) + GroupOf(items, order[j])
  {
    assert order[..j + 1] == order[..j] + [order[j]];
    GroupsConcatSnoc(items, order[..j], order[j]);
  }

  /** Each notice's retried fetch, in order. */
  function Results(items: seq<NewItem>, fetch: Fetcher): (r: seq<CrawlResult>)
    ensures |r| == |items|
  {
    if items == [] then [] else [Retried(items[0], fetch)] + Results(items[1..], fetch)
  }

  /** The `i`-th result is the retried fetch of the `i`-th notice. */
  lemma {:induction false} ResultsAt(items: seq<NewItem>, fetch: Fetcher, i: nat)
    requires i < |items|
    ensures Results(items, fetch)[i] == Retried(items[i], fetch)
  {
    if i > 0 {
      ResultsAt(items[1..], fetch, i - 1);
    }
  }

  lemma ResultsSnoc(items: seq<NewItem>, i: nat, fetch: Fetcher)
    requires i < |items|
    ensures Results(items[..i + 1], fetch) == Results(items[..i], fetch) + [Retried(items[i], fetch)]
  {
    assert items[..i + 1] == items[..i] + [items[i]];
    ResultsAppend(items[..i], [items[i]], fetch);
  }

  lemma ResultsAppend(a: seq<NewItem>, b: seq<NewItem>, fetch: Fetcher)
    ensures Results(a + b, fetch) == Results(a, fetch) + Results(b, fetch)
  {
    var l, r := Results(a + b, fetch), Results(a, fetch) + Results(b, fetch);
    forall i | 0 <= i < |l| ensures l[i] == r[i] {
      ResultsAt(a + b, fetch, i);
      if i < |a| {
        assert (a + b)[i] == a[i];
        ResultsAt(a, fetch, i);
      } else {
        assert (a + b)[i] == b[i - |a|];
        ResultsAt(b, fetch, i - |a|);
      }
    }
  }

  // ------------------------------------------------------------------ one crawl run

  /** A fetched record handed to the summary step; the summary itself is not produced yet. */
  datatype SummaryInput = SummaryInput(result: CrawlResult, aiSummary: Option<string>)

  /** `process_ai_summary`: passes the record through with an empty summary. */
  function ProcessAiSummary(r: CrawlResult): (s: SummaryInput)
    ensures s.result == r && s.aiSummary.None?
  {
    SummaryInput(r, None)
  }

  /** Every listed board's new notices, board by board. */
  function AllNew(db: NoticeDB, ids: seq<int>, scrape: Scraper): seq<NewItem>
    reads db
  {
    if ids == [] then []
    else
      var id := ids[|ids| - 1];
      AllNew(db, ids[..|ids| - 1], scrape) + NewNotifications(id, db.GetNotificationInfo(id), db.ExistingLinks(id), scrape)
  }

  /** The successful fetches, each passed to the summary step, in order. */
  function SummaryInputs(results: seq<CrawlResult>): (r: seq<SummaryInput>)
    ensures |r| <= |results|
  {
    if results == [] then []
    else
      var init := results[..|results| - 1];
      var c := results[|results| - 1];
      SummaryInputs(init) + (if c.record.success then [ProcessAiSummary(c)] else [])
  }

  /** An entry goes to the summary step exactly when it is a successful fetch. */
  lemma {:induction false} SummaryInputsMembers(results: seq<CrawlResult>)
    ensures forall x | x in SummaryInputs(results) :: x.result in results && x.result.record.success && x.aiSummary.None?
    ensures forall c | c in results && c.record.success :: ProcessAiSummary(c) in SummaryInputs(results)
  {
    if results != [] {
      var init := results[..|results| - 1];
      assert results == init + [results[|results| - 1]];
      SummaryInputsMembers(init);
    }
  }

  /** First phase of `main`: every board's new notices, board by board. */
  method CollectNewNotifications(db: NoticeDB, ids: seq<int>, scrape: Scraper) returns (all: seq<NewItem>)
    ensures all == AllNew(db, ids, scrape)
  {
    all := [];
    for i := 0 to |ids|
      invariant all == AllNew(db, ids[..i], scrape)
    {
      var found := GetNewNotifications(db, ids[i], scrape);
      assert ids[..i + 1][..i] == ids[..i];
      all := all + found;
    }
    assert ids[..|ids|] == ids;
  }

  /** Third phase of `main`: the successful records, each through `process_ai_summary`. */
  method SummarizeSuccesses(results: seq<CrawlResult>) returns (final: seq<SummaryInput>)
    ensures final == SummaryInputs(results)
  {
    final := [];
    for i := 0 to |results|
      invariant final == SummaryInputs(results[..i])
    {
      assert results[..i + 1] == results[..i] + [results[i]];
      if results[i].record.success {
        final := final + [ProcessAiSummary(results[i])];
      }
    }
    assert results[..|results|] == results;
  }

  /**
   * `main`: collects every board's new notices, stops without output when there are none,
   * crawls them and returns the successful records with an empty summary (the list written
   * to the JSON file). The summary step finishes in an unspecified order, so only the
   * entries are promised, not their order.
   */
  method RunCrawl(db: NoticeDB, scrape: Scraper, net: Network, clean: string -> string)
    returns (written: Option<seq<SummaryInput>>)
    requires db.Valid()
    ensures var all := AllNew(db, db.GetAllIds(), scrape);
            && (written.None? <==> all == [])
            && (written.Some? ==>
                  multiset(written.value) == multiset(SummaryInputs(Results(Scheduled(all), ContentFetcher(net, clean)))))
  {
    var ids := db.GetAllIds();
    var all := CollectNewNotifications(db, ids, scrape);
    if all == [] {
      return None;
    }
    var results, _ := CrawlAllContent(all, ContentFetcher(net, clean));
    var final := SummarizeSuccesses(results);
    written := Some(final);
  }

  /** Every collected notice belongs to a listed board and its link is not yet in that board's ledger. */
  lemma {:induction false} AllNewAreUnseen(db: NoticeDB, ids: seq<int>, scrape: Scraper)
    ensures forall it | it in AllNew(db, ids, scrape) ::
              it.notificationId in ids && it.link !in db.ExistingLinks(it.notificationId)
  {
    if ids != [] {
      var init := ids[..|ids| - 1];
      var id := ids[|ids| - 1];
      AllNewAreUnseen(db, init, scrape);
      forall it | it in NewNotifications(id, db.GetNotificationInfo(id), db.ExistingLinks(id), scrape)
        ensures it.notificationId == id && it.link !in db.ExistingLinks(id)
      {
        var info := db.GetNotificationInfo(id).value;
        NewItemsAreUnseen(id, info, db.ExistingLinks(id), scrape, it);
      }
      assert forall x | x in init :: x in ids;
    }
  }

  lemma ResultsMembers(items: seq<NewItem>, fetch: Fetcher)
    ensures forall c :: c in Results(items, fetch) <==> exists it :: it in items && c == Retried(it, fetch)
  {
    var r := Results(items, fetch);
    forall c ensures c in r <==> exists it :: it in items && c == Retried(it, fetch) {
      if c in r {
        var i :| 0 <= i < |r| && r[i] == c;
        ResultsAt(items, fetch, i);
        assert items[i] in items;
      }
      if exists it :: it in items && c == Retried(it, fetch) {
        var it :| it in items && c == Retried(it, fetch);
        var i :| 0 <= i < |items| && items[i] == it;
        ResultsAt(items, fetch, i);
        assert r[i] == c;
      }
    }
  }

  /**
   * The written entries are exactly the successful retried fetches of the collected
   * notices, each with an empty summary.
   */
  lemma WrittenEntries(all: seq<NewItem>, fetch: Fetcher)
    ensures forall x | x in SummaryInputs(Results(Scheduled(all), fetch)) ::
              x.result.record.success && x.aiSummary.None?
              && exists it :: it in all && x.result == Retried(it, fetch)
    ensures forall it | it in all && Retried(it, fetch).record.success ::
              ProcessAiSummary(Retried(it, fetch)) in SummaryInputs(Results(Scheduled(all), fetch))
  {
    ScheduledIsPermutation(all);
    assert forall it :: it in Scheduled(all) <==> it in all by {
      forall it ensures it in Scheduled(all) <==> it in all {
        assert it in Scheduled(all) <==> it in multiset(Scheduled(all));
      }
    }
    ResultsMembers(Scheduled(all), fetch);
    SummaryInputsMembers(Results(Scheduled(all), fetch));
  }
}
