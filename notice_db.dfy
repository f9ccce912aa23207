/**
 * The SQLite store shared by the crawler and the website: the `notificationList`
 * registry of crawled boards, one ledger table `notification_data_<id>` per board,
 * the `user` table and the `user_subscriptions` table.
 *
 * SQL NULL is `None`; text columns are strings; `CURRENT_TIMESTAMP` is the text
 * `now` supplied by the caller. Timestamps compare as text, as SQLite and Python do.
 */
module NoticeStore {
  import opened Wrappers
  import opened Lists
  import Text

  // ------------------------------------------------------------------ rows

  /** A row of `notificationList`: one crawled notice board. */
  datatype Source = Source(
    id: int, title: string, url: string, login: int, displayType: Option<string>,
    college: Option<string>, department: Option<string>, major: Option<string>,
    description: Option<string>, linkSelector: Option<string>, contentSelector: Option<string>)

  /** A row of a ledger table `notification_data_<id>`. */
  datatype LedgerRow = LedgerRow(
    link: string, stamp: Option<string>, title: string, rawHtml: Option<string>, aiJson: string)

  datatype UserRow = UserRow(email: string, subscribe: string)

  datatype SubRow = SubRow(subscribedAt: string, active: bool)

  /** A status dictionary `{"code": …, "message": …}`. */
  datatype Reply = Reply(code: int, message: string)

  /** What the crawler asks about a board before scraping it. */
  datatype NoticeInfo = NoticeInfo(
    title: string, url: string, linkSelector: Option<string>, contentSelector: Option<string>)

  /** One entry of a user's feed. */
  datatype FeedItem = FeedItem(title: string, link: string, stamp: string, category: string)

  /** One row of a user's subscription list, joined with the board it names. */
  datatype SubscriptionView = SubscriptionView(
    notificationId: int, subscribedAt: string, isActive: bool, title: string, url: string,
    displayType: Option<string>, college: Option<string>, department: Option<string>,
    major: Option<string>)

  /** One subscriber of a board, joined with the user's address. */
  datatype SubscriberView = SubscriberView(userId: string, subscribedAt: string, email: string)

  /** A board shown as a button on the subscription page. */
  datatype ButtonRow = ButtonRow(
    id: int, title: string, url: string, displayType: Option<string>, description: Option<string>)

  /** A board listed in the college/department drop-down. */
  datatype DropdownEntry = DropdownEntry(id: int, title: string, url: string, major: Option<string>)

  type Dropdown = map<Option<string>, map<Option<string>, seq<DropdownEntry>>>

  // ------------------------------------------------------------------ saving a program

  /** A value of the dictionary given to `save_program_to_db`: key missing, `None`, or text. */
  datatype Field = Absent | Null | Str(s: string)

  datatype Program = Program(link: Field, stamp: Field, title: Field, rawHtml: Field, aiJson: Field)

  /** `program.get(key)`: a missing key reads as `None`. */
  function GetColumn(f: Field): Option<string> {
    match f
    case Str(s) => Some(s)
    case _ => None
  }

  /** `program.get(key, 'null')`: a missing key becomes the text `null`, `None` is SQL NULL. */
  function GetColumnOrNullText(f: Field): Option<string> {
    match f
    case Absent => Some("null")
    case Null => None
    case Str(s) => Some(s)
  }

  /** `str(program.get('ai_json_data', 'null'))` for a non-dictionary value. */
  function AiJsonColumn(f: Field): string {
    match f
    case Absent => "null"
    case Null => "None"
    case Str(s) => s
  }

  /** The `link` and `title` columns are NOT NULL: the insert succeeds iff both are present. */
  predicate Insertable(p: Program) {
    GetColumn(p.link).Some? && GetColumnOrNullText(p.title).Some?
  }

  /**
   * The stamp stored for a program. An explicit `None` leaves the column to its
   * `DEFAULT CURRENT_TIMESTAMP`, as the caller intends (see `StampAsWritten`).
   */
  function StampColumn(f: Field, now: string): (v: Option<string>)
    ensures v.Some?
    ensures f.Str? ==> v == Some(f.s)
  {
    if f.Null? then Some(now) else GetColumnOrNullText(f)
  }

  /** The ledger row inserted for `p`. */
  function RowOf(p: Program, now: string): (r: LedgerRow)
    requires Insertable(p)
    ensures r.stamp.Some?
    ensures Some(r.link) == GetColumn(p.link) && Some(r.title) == GetColumnOrNullText(p.title)
  {
    LedgerRow(GetColumn(p.link).value, StampColumn(p.stamp, now), GetColumnOrNullText(p.title).value,
              GetColumnOrNullText(p.rawHtml), AiJsonColumn(p.aiJson))
  }

  // ------------------------------------------------------------------ finding: NULL stamps

  /** The stamp the code as written stores: `None` goes into the column as an explicit NULL. */
  function StampAsWritten(f: Field): (v: Option<string>)
    ensures f.Null? ==> v.None?
  {
    GetColumnOrNullText(f)
  }

  /** A feed entry as read back from a ledger whose stamp may be NULL. */
  datatype RawFeedItem = RawFeedItem(title: string, link: string, stamp: Option<string>, category: string)

  /**
   * Python's `sort` raises `TypeError` as soon as it compares `None` with anything,
   * which happens whenever two or more entries are sorted and one key is `None`.
   */
  predicate SortRaises(items: seq<RawFeedItem>) {
    |items| >= 2 && exists i :: 0 <= i < |items| && items[i].stamp.None?
  }

  /**
   * The page `get_user_notifications` returns as written: when the sort raises,
   * the handler swallows the error and answers with an empty list.
   */
  function PageAsWritten(items: seq<RawFeedItem>, offset: int, limit: int): (page: seq<RawFeedItem>)
    ensures SortRaises(items) ==> page == []
    ensures limit >= 0 ==> |page| <= limit
  {
    if SortRaises(items) then []
    else
      PageLength(items, offset, limit);
      PySlice(Sort(items, (a: RawFeedItem, b: RawFeedItem) =>
                     a.stamp.Some? && b.stamp.Some? && TextLess(b.stamp.value, a.stamp.value)),
              offset, offset + limit)
  }

  /**
   * Two notices saved through `save_new_notification` as written both carry a NULL
   * stamp, so a subscriber of their board sees an empty feed instead of two entries.
   */
  lemma NullStampsHideFeed(a: Program, b: Program, category: string, offset: int, limit: int)
    requires Insertable(a) && Insertable(b) && a.stamp.Null? && b.stamp.Null?
    ensures var items := [RawFeedItem(GetColumnOrNullText(a.title).value, GetColumn(a.link).value, StampAsWritten(a.stamp), category),
                          RawFeedItem(GetColumnOrNullText(b.title).value, GetColumn(b.link).value, StampAsWritten(b.stamp), category)];
            |items| == 2 && PageAsWritten(items, offset, limit) == []
  {
    var items := [RawFeedItem(GetColumnOrNullText(a.title).value, GetColumn(a.link).value, StampAsWritten(a.stamp), category),
                  RawFeedItem(GetColumnOrNullText(b.title).value, GetColumn(b.link).value, StampAsWritten(b.stamp), category)];
    assert items[0].stamp.None?;
  }

  // ------------------------------------------------------------------ orders

  /** Feed order: newest stamp first (`sort(..., reverse=True)` and `ORDER BY crawl_timestamp DESC`). */
  predicate NewerFirst(a: FeedItem, b: FeedItem) {
    TextLess(b.stamp, a.stamp)
  }

  /** Subscription order: most recent `subscribed_at` first. */
  predicate LaterSubscribedFirst(a: SubscriptionView, b: SubscriptionView) {
    TextLess(b.subscribedAt, a.subscribedAt)
  }

  predicate LaterSubscriberFirst(a: SubscriberView, b: SubscriberView) {
    TextLess(b.subscribedAt, a.subscribedAt)
  }

  /** SQLite's ascending order on a nullable text column: NULL first. */
  predicate NullableLess(a: Option<string>, b: Option<string>) {
    if a.None? then b.Some? else b.Some? && TextLess(a.value, b.value)
  }

  /** `ORDER BY college, department, major`. */
  predicate DropdownBefore(a: Source, b: Source) {
    || NullableLess(a.college, b.college)
    || (a.college == b.college && NullableLess(a.department, b.department))
    || (a.college == b.college && a.department == b.department && NullableLess(a.major, b.major))
  }

  lemma TextOrderStrict()
    ensures forall a: string :: !TextLess(a, a)
    ensures forall a: string, b: string, c: string :: TextLess(a, b) && TextLess(b, c) ==> TextLess(a, c)
  {
    forall a: string ensures !TextLess(a, a) {
      TextLessIrreflexive(a);
    }
    forall a: string, b: string, c: string | TextLess(a, b) && TextLess(b, c) ensures TextLess(a, c) {
      TextLessTransitive(a, b, c);
    }
  }

  lemma NewerFirstStrict()
    ensures StrictOrder(NewerFirst)
  {
    TextOrderStrict();
  }

  lemma LaterSubscribedFirstStrict()
    ensures StrictOrder(LaterSubscribedFirst)
  {
    TextOrderStrict();
  }

  lemma LaterSubscriberFirstStrict()
    ensures StrictOrder(LaterSubscriberFirst)
  {
    TextOrderStrict();
  }

  lemma NullableLessStrict()
    ensures forall a: Option<string> :: !NullableLess(a, a)
    ensures forall a: Option<string>, b: Option<string>, c: Option<string> ::
              NullableLess(a, b) && NullableLess(b, c) ==> NullableLess(a, c)
  {
    TextOrderStrict();
  }

  /** The three-key ordering of the drop-down query is a strict order. */
  lemma DropdownBeforeStrict()
    ensures StrictOrder(DropdownBefore)
  {
    NullableLessStrict();
  }

  // ------------------------------------------------------------------ pure queries

  /** Ids strictly increase along the registry: its rows read in `ORDER BY id` order. */
  predicate IdsIncreasing(s: seq<Source>) {
    forall i, j :: 0 <= i < j < |s| ==> s[i].id < s[j].id
  }

  predicate EmailsUnique(users: map<string, UserRow>) {
    forall a, b | a in users && b in users && a != b :: users[a].email != users[b].email
  }

  predicate Stamped(rows: seq<LedgerRow>) {
    forall r | r in rows :: r.stamp.Some?
  }

  /** The registry row with the given id (`WHERE id = ?`). */
  function FindSource(s: seq<Source>, id: int): (r: Option<Source>)
    ensures r.Some? ==> r.value in s && r.value.id == id
    ensures r.None? ==> forall x | x in s :: x.id != id
  {
    if s == [] then None
    else if s[0].id == id then Some(s[0])
    else FindSource(s[1..], id)
  }

  /** `SELECT … FROM notificationList WHERE display_type = "button" ORDER BY id`. */
  function ButtonsOf(s: seq<Source>): (r: seq<ButtonRow>)
    ensures forall b | b in r :: b.displayType == Some("button")
    ensures forall x | x in s && x.displayType == Some("button") ::
              ButtonRow(x.id, x.title, x.url, x.displayType, x.description) in r
    ensures forall b | b in r :: exists x :: x in s && b == ButtonRow(x.id, x.title, x.url, x.displayType, x.description)
  {
    if s == [] then []
    else
      var rest := ButtonsOf(s[1..]);
      if s[0].displayType == Some("button")
      then [ButtonRow(s[0].id, s[0].title, s[0].url, s[0].displayType, s[0].description)] + rest
      else rest
  }

  /** The button rows keep the registry's order, so they come out in `ORDER BY id` order. */
  lemma {:induction false} ButtonsInIdOrder(s: seq<Source>)
    requires IdsIncreasing(s)
    ensures forall j, k :: 0 <= j < k < |ButtonsOf(s)| ==> ButtonsOf(s)[j].id < ButtonsOf(s)[k].id
  {
    if s != [] {
      ButtonsInIdOrder(s[1..]);
      var rest := ButtonsOf(s[1..]);
      assert forall b | b in rest :: s[0].id < b.id by {
        forall b | b in rest ensures s[0].id < b.id {
          var x :| x in s[1..] && b == ButtonRow(x.id, x.title, x.url, x.displayType, x.description);
        }
      }
    }
  }

  /** The rows of the drop-down query, before ordering. */
  function DropdownSources(s: seq<Source>): (r: seq<Source>)
    ensures forall x | x in r :: x in s && x.displayType == Some("dropdown")
    ensures forall x | x in s && x.displayType == Some("dropdown") :: x in r
  {
    if s == [] then []
    else if s[0].displayType == Some("dropdown") then [s[0]] + DropdownSources(s[1..])
    else DropdownSources(s[1..])
  }

  function EntryOf(x: Source): DropdownEntry {
    DropdownEntry(x.id, x.title, x.url, x.major)
  }

  /** The entries listed under one (college, department) pair, in query order. */
  function Group(rows: seq<Source>, college: Option<string>, department: Option<string>): (g: seq<DropdownEntry>)
    ensures |g| <= |rows|
    ensures (forall x | x in rows :: x.college != college || x.department != department) ==> g == []
    ensures forall e | e in g :: exists x :: x in rows && x.college == college && x.department == department && e == EntryOf(x)
  {
    if rows == [] then []
    else
      var last := rows[|rows| - 1];
      var init := Group(rows[..|rows| - 1], college, department);
      if last.college == college && last.department == department then init + [EntryOf(last)] else init
  }

  /** The nested drop-down dictionary built row by row: college, then department, then entries. */
  function DropdownOf(rows: seq<Source>): Dropdown {
    if rows == [] then map[]
    else
      var m := DropdownOf(rows[..|rows| - 1]);
      var x := rows[|rows| - 1];
      var inner := if x.college in m then m[x.college] else map[];
      var group := if x.department in inner then inner[x.department] else [];
      m[x.college := inner[x.department := group + [EntryOf(x)]]]
  }

  /** One more row adds its entry under its college and department. */
  lemma DropdownSnoc(rows: seq<Source>, i: nat)
    requires i < |rows|
    ensures var m := DropdownOf(rows[..i]);
            var x := rows[i];
            var inner := if x.college in m then m[x.college] else map[];
            var group := if x.department in inner then inner[x.department] else [];
            DropdownOf(rows[..i + 1]) == m[x.college := inner[x.department := group + [EntryOf(x)]]]
  {
    assert rows[..i + 1][..i] == rows[..i];
  }

  /**
   * Each (college, department) pair that some row carries, and no other, is a key pair,
   * and it lists exactly that pair's rows, in row order.
   */
  lemma DropdownGroups(rows: seq<Source>, c: Option<string>, d: Option<string>)
    ensures c in DropdownOf(rows) <==> exists x :: x in rows && x.college == c
    ensures (c in DropdownOf(rows) && d in DropdownOf(rows)[c])
            <==> exists x :: x in rows && x.college == c && x.department == d
    ensures c in DropdownOf(rows) && d in DropdownOf(rows)[c] ==> DropdownOf(rows)[c][d] == Group(rows, c, d)
  {
    DropdownKeys(rows, c, d);
    DropdownEntries(rows, c, d);
  }

  lemma {:induction false} DropdownKeys(rows: seq<Source>, c: Option<string>, d: Option<string>)
    ensures c in DropdownOf(rows) <==> exists x :: x in rows && x.college == c
    ensures (c in DropdownOf(rows) && d in DropdownOf(rows)[c])
            <==> exists x :: x in rows && x.college == c && x.department == d
  {
    if rows != [] {
      var init := rows[..|rows| - 1];
      var x := rows[|rows| - 1];
      assert rows == init + [x];
      DropdownKeys(init, c, d);
      forall y | y in rows ensures y in init || y == x {
      }
    }
  }

  lemma {:induction false} DropdownEntries(rows: seq<Source>, c: Option<string>, d: Option<string>)
    ensures c in DropdownOf(rows) && d in DropdownOf(rows)[c] ==> DropdownOf(rows)[c][d] == Group(rows, c, d)
  {
    if rows != [] {
      var init := rows[..|rows| - 1];
      var x := rows[|rows| - 1];
      assert rows == init + [x];
      DropdownEntries(init, c, d);
      DropdownKeys(init, c, d);
      GroupAppend(init, x, c, d);
    }
  }

  lemma {:induction false} GroupAppend(rows: seq<Source>, x: Source, c: Option<string>, d: Option<string>)
    ensures Group(rows + [x], c, d)
            == Group(rows, c, d) + (if x.college == c && x.department == d then [EntryOf(x)] else [])
  {
    assert (rows + [x])[..|rows + [x]| - 1] == rows;
  }

  // ------------------------------------------------------------------ feed

  /** The feed entry of a stamped ledger row of the board titled `category`. */
  function FeedItemOf(r: LedgerRow, category: string): FeedItem
    requires r.stamp.Some?
  {
    FeedItem(r.title, r.link, r.stamp.value, category)
  }

  function FeedItems(rows: seq<LedgerRow>, category: string): (r: seq<FeedItem>)
    requires Stamped(rows)
    ensures |r| == |rows|
    ensures forall i :: 0 <= i < |rows| ==> r[i] == FeedItemOf(rows[i], category)
  {
    if rows == [] then [] else [FeedItemOf(rows[0], category)] + FeedItems(rows[1..], category)
  }

  /** Keeps the first ten entries (`LIMIT 10`). */
  function Take10<T>(s: seq<T>): (r: seq<T>)
    ensures |r| == if |s| < 10 then |s| else 10
    ensures r == s[..|r|]
  {
    if |s| <= 10 then s else s[..10]
  }

  /** One board's contribution to a feed: its ten newest rows, titled with the board's name. */
  function TableFeed(srcs: seq<Source>, tabs: map<int, seq<LedgerRow>>, id: int): (r: seq<FeedItem>)
    requires forall t | t in tabs :: Stamped(tabs[t])
    ensures |r| <= 10
    ensures id !in tabs ==> r == []
    ensures FindSource(srcs, id).None? ==> r == []
  {
    if id !in tabs then [] else BoardFeed(srcs, tabs[id], id)
  }

  /** The rows of board `id`'s ledger, newest first, at most ten, joined with the board's title. */
  function BoardFeed(srcs: seq<Source>, rows: seq<LedgerRow>, id: int): (r: seq<FeedItem>)
    requires Stamped(rows)
    ensures |r| <= 10 && |r| <= |rows|
    ensures FindSource(srcs, id).None? ==> r == []
  {
    match FindSource(srcs, id)
    case None => []
    case Some(src) => Take10(Sort(FeedItems(rows, src.title), NewerFirst))
  }

  /** Newest-first per board: each board's contribution is itself sorted. */
  lemma TableFeedSorted(srcs: seq<Source>, tabs: map<int, seq<LedgerRow>>, id: int)
    requires forall t | t in tabs :: Stamped(tabs[t])
    ensures Sorted(TableFeed(srcs, tabs, id), NewerFirst)
  {
    if id in tabs && FindSource(srcs, id).Some? {
      var all := Sort(FeedItems(tabs[id], FindSource(srcs, id).value.title), NewerFirst);
      NewerFirstStrict();
      SortSorted(FeedItems(tabs[id], FindSource(srcs, id).value.title), NewerFirst);
      SliceSorted(all, 0, |Take10(all)|, NewerFirst);
      assert PySlice(all, 0, |Take10(all)|) == Take10(all);
    }
  }

  /** Every board's entries in the order the boards are visited. */
  function Pool(srcs: seq<Source>, tabs: map<int, seq<LedgerRow>>, order: seq<int>): (r: seq<FeedItem>)
    requires forall t | t in tabs :: Stamped(tabs[t])
    ensures |r| <= 10 * |order|
  {
    if order == [] then []
    else Pool(srcs, tabs, order[..|order| - 1]) + TableFeed(srcs, tabs, order[|order| - 1])
  }

  /** The page served: the pool sorted newest first, then Python's `[offset:offset + limit]`. */
  function Page(srcs: seq<Source>, tabs: map<int, seq<LedgerRow>>, order: seq<int>, offset: int, limit: int): seq<FeedItem>
    requires forall t | t in tabs :: Stamped(tabs[t])
  {
    PySlice(Sort(Pool(srcs, tabs, order), NewerFirst), offset, offset + limit)
  }

  /**
   * A page is newest first, holds at most `limit` entries for a non-negative limit,
   * and only entries of the subscribed boards.
   */
  lemma PageProperties(srcs: seq<Source>, tabs: map<int, seq<LedgerRow>>, order: seq<int>, offset: int, limit: int)
    requires forall t | t in tabs :: Stamped(tabs[t])
    ensures Sorted(Page(srcs, tabs, order, offset, limit), NewerFirst)
    ensures limit >= 0 ==> |Page(srcs, tabs, order, offset, limit)| <= limit
    ensures multiset(Page(srcs, tabs, order, offset, limit)) <= multiset(Pool(srcs, tabs, order))
  {
    var sorted := Sort(Pool(srcs, tabs, order), NewerFirst);
    NewerFirstStrict();
    SortSorted(Pool(srcs, tabs, order), NewerFirst);
    SliceSorted(sorted, offset, offset + limit, NewerFirst);
    PageLength(sorted, offset, limit);
    SliceMultiset(sorted, offset, offset + limit);
  }

  /** With stamps always present, the first page large enough shows every pooled entry. */
  lemma FeedShowsEverySavedRow(srcs: seq<Source>, tabs: map<int, seq<LedgerRow>>, order: seq<int>, limit: int)
    requires forall t | t in tabs :: Stamped(tabs[t])
    requires limit >= |Pool(srcs, tabs, order)|
    ensures multiset(Page(srcs, tabs, order, 0, limit)) == multiset(Pool(srcs, tabs, order))
  {
    var sorted := Sort(Pool(srcs, tabs, order), NewerFirst);
    FirstPage(sorted, limit);
    assert sorted[..|sorted|] == sorted;
  }

  // ------------------------------------------------------------------ subscription queries

  type Subscriptions = map<(string, int), SubRow>

  /** The boards `user` follows among the rows keyed by `keys`. */
  function ActiveAmong(subs: Subscriptions, keys: set<(string, int)>, user: string): set<int> {
    set k | k in keys && k in subs && k.0 == user && subs[k].active :: k.1
  }

  lemma ActiveAmongStep(subs: Subscriptions, keys: set<(string, int)>, k: (string, int), user: string)
    requires k in subs && k !in keys
    ensures k.0 == user && subs[k].active ==>
              k.1 !in ActiveAmong(subs, keys, user)
              && ActiveAmong(subs, keys + {k}, user) == ActiveAmong(subs, keys, user) + {k.1}
    ensures !(k.0 == user && subs[k].active) ==> ActiveAmong(subs, keys + {k}, user) == ActiveAmong(subs, keys, user)
  {
    if k.0 == user && subs[k].active {
      forall k' | k' in keys && k'.0 == user ensures k'.1 != k.1 {
        assert k' != k;
      }
    }
  }

  function ViewOf(k: (string, int), row: SubRow, x: Source): SubscriptionView {
    SubscriptionView(k.1, row.subscribedAt, row.active, x.title, x.url, x.displayType, x.college, x.department, x.major)
  }

  /** The user's active subscriptions among `keys`, joined with their registry rows. */
  function ViewsAmong(subs: Subscriptions, srcs: seq<Source>, keys: set<(string, int)>, user: string): set<SubscriptionView> {
    set k | k in keys && k in subs && k.0 == user && subs[k].active && FindSource(srcs, k.1).Some?
      :: ViewOf(k, subs[k], FindSource(srcs, k.1).value)
  }

  lemma ViewsAmongStep(subs: Subscriptions, srcs: seq<Source>, keys: set<(string, int)>, k: (string, int), user: string)
    requires k in subs && k !in keys
    ensures var keep := k.0 == user && subs[k].active && FindSource(srcs, k.1).Some?;
            if keep then
              var v := ViewOf(k, subs[k], FindSource(srcs, k.1).value);
              v !in ViewsAmong(subs, srcs, keys, user)
              && ViewsAmong(subs, srcs, keys + {k}, user) == ViewsAmong(subs, srcs, keys, user) + {v}
            else ViewsAmong(subs, srcs, keys + {k}, user) == ViewsAmong(subs, srcs, keys, user)
  {
    if k.0 == user && subs[k].active && FindSource(srcs, k.1).Some? {
      var v := ViewOf(k, subs[k], FindSource(srcs, k.1).value);
      forall k' | k' in keys && k' in subs && k'.0 == user && FindSource(srcs, k'.1).Some?
        ensures ViewOf(k', subs[k'], FindSource(srcs, k'.1).value) != v
      {
        assert k' != k;
      }
    }
  }

  /** The board's active subscribers among `keys`, joined with their user rows. */
  function SubscribersAmong(subs: Subscriptions, users: map<string, UserRow>, keys: set<(string, int)>, id: int)
    : set<SubscriberView>
  {
    set k | k in keys && k in subs && k.1 == id && subs[k].active && k.0 in users
      :: SubscriberView(k.0, subs[k].subscribedAt, users[k.0].email)
  }

  lemma SubscribersAmongStep(subs: Subscriptions, users: map<string, UserRow>, keys: set<(string, int)>, k: (string, int), id: int)
    requires k in subs && k !in keys
    ensures var keep := k.1 == id && subs[k].active && k.0 in users;
            if keep then
              var s := SubscriberView(k.0, subs[k].subscribedAt, users[k.0].email);
              s !in SubscribersAmong(subs, users, keys, id)
              && SubscribersAmong(subs, users, keys + {k}, id) == SubscribersAmong(subs, users, keys, id) + {s}
            else SubscribersAmong(subs, users, keys + {k}, id) == SubscribersAmong(subs, users, keys, id)
  {
    if k.1 == id && subs[k].active && k.0 in users {
      forall k' | k' in keys && k' in subs && k'.1 == id && k'.0 in users
        ensures SubscriberView(k'.0, subs[k'].subscribedAt, users[k'.0].email) != SubscriberView(k.0, subs[k].subscribedAt, users[k.0].email)
      {
        assert k' != k;
      }
    }
  }

  /** Taking key `k` out of the keys still to visit adds its row, if it is selected, once. */
  lemma ViewsCollected(subs: Subscriptions, srcs: seq<Source>, rest: set<(string, int)>, k: (string, int), user: string)
    requires rest <= subs.Keys && k in rest
    ensures multiset(ViewsAmong(subs, srcs, subs.Keys - (rest - {k}), user)) ==
            multiset(ViewsAmong(subs, srcs, subs.Keys - rest, user)) +
            if k.0 == user && subs[k].active && FindSource(srcs, k.1).Some?
            then multiset{ViewOf(k, subs[k], FindSource(srcs, k.1).value)} else multiset{}
  {
    var done := subs.Keys - rest;
    assert subs.Keys - (rest - {k}) == done + {k};
    ViewsAmongStep(subs, srcs, done, k, user);
  }

  lemma SubscribersCollected(subs: Subscriptions, users: map<string, UserRow>, rest: set<(string, int)>, k: (string, int), id: int)
    requires rest <= subs.Keys && k in rest
    ensures multiset(SubscribersAmong(subs, users, subs.Keys - (rest - {k}), id)) ==
            multiset(SubscribersAmong(subs, users, subs.Keys - rest, id)) +
            if k.1 == id && subs[k].active && k.0 in users
            then multiset{SubscriberView(k.0, subs[k].subscribedAt, users[k.0].email)} else multiset{}
  {
    var done := subs.Keys - rest;
    assert subs.Keys - (rest - {k}) == done + {k};
    SubscribersAmongStep(subs, users, done, k, id);
  }

  lemma ViewsAreActive(subs: Subscriptions, srcs: seq<Source>, user: string, views: seq<SubscriptionView>)
    requires multiset(views) == multiset(ViewsAmong(subs, srcs, subs.Keys, user))
    ensures forall v | v in views :: v.isActive && v.notificationId in ActiveAmong(subs, subs.Keys, user)
  {
    ListsSet(views, ViewsAmong(subs, srcs, subs.Keys, user));
    forall v | v in views ensures v.isActive && v.notificationId in ActiveAmong(subs, subs.Keys, user) {
      var k :| k in subs && k.0 == user && subs[k].active
               && FindSource(srcs, k.1).Some? && v == ViewOf(k, subs[k], FindSource(srcs, k.1).value);
      assert k.1 in ActiveAmong(subs, subs.Keys, user);
    }
  }

  /** Sorting the collected rows keeps them and the facts about them. */
  lemma SortedViews(subs: Subscriptions, srcs: seq<Source>, user: string, acc: seq<SubscriptionView>)
    requires multiset(acc) == multiset(ViewsAmong(subs, srcs, subs.Keys, user))
    ensures multiset(Sort(acc, LaterSubscribedFirst)) == multiset(ViewsAmong(subs, srcs, subs.Keys, user))
    ensures Sorted(Sort(acc, LaterSubscribedFirst), LaterSubscribedFirst)
    ensures forall v | v in Sort(acc, LaterSubscribedFirst) :: v.isActive && v.notificationId in ActiveAmong(subs, subs.Keys, user)
  {
    LaterSubscribedFirstStrict();
    SortSorted(acc, LaterSubscribedFirst);
    ViewsAreActive(subs, srcs, user, Sort(acc, LaterSubscribedFirst));
  }

  lemma SubscribersAreActive(subs: Subscriptions, users: map<string, UserRow>, id: int, views: seq<SubscriberView>)
    requires multiset(views) == multiset(SubscribersAmong(subs, users, subs.Keys, id))
    ensures forall s | s in views :: s.userId in users && id in ActiveAmong(subs, subs.Keys, s.userId)
  {
    ListsSet(views, SubscribersAmong(subs, users, subs.Keys, id));
    forall s | s in views ensures s.userId in users && id in ActiveAmong(subs, subs.Keys, s.userId) {
      var k :| k in subs && k.1 == id && subs[k].active && k.0 in users
               && s == SubscriberView(k.0, subs[k].subscribedAt, users[k.0].email);
      assert k == (s.userId, id);
    }
  }

  // ------------------------------------------------------------------ the store

  class NoticeDB {
    var sources: seq<Source>
    var tables: map<int, seq<LedgerRow>>
    var users: map<string, UserRow>
    var subscriptions: map<(string, int), SubRow>

    /** Primary keys and the `email` UNIQUE constraint hold, and every ledger row has a stamp. */
    ghost predicate Valid()
      reads this
    {
      && IdsIncreasing(sources)
      && EmailsUnique(users)
      && (forall t | t in tables :: Stamped(tables[t]))
    }

    /** A database holding the given registry and nothing else. */
    constructor(registry: seq<Source>)
      requires IdsIncreasing(registry)
      ensures Valid()
      ensures sources == registry && tables == map[] && users == map[] && subscriptions == map[]
    {
      sources := registry;
      tables := map[];
      users := map[];
      subscriptions := map[];
    }

    function Rows(id: int): seq<LedgerRow>
      reads this
    {
      if id in tables then tables[id] else []
    }

    /** `get_existing_links`: the links already recorded for a board; none when its table is missing. */
    function ExistingLinks(id: int): (links: set<string>)
      reads this
      ensures id !in tables ==> links == {}
      ensures forall r | r in Rows(id) :: r.link in links
      ensures forall l | l in links :: exists r :: r in Rows(id) && r.link == l
    {
      set r | r in Rows(id) :: r.link
    }

    /** `get_notification_info`: the board's title, URL and selectors, or `None` for an unknown id. */
    function GetNotificationInfo(id: int): (info: Option<NoticeInfo>)
      reads this
      ensures info.None? <==> forall x | x in sources :: x.id != id
      ensures info.Some? ==>
                (exists x :: x in sources && x.id == id
                             && info.value == NoticeInfo(x.title, x.url, x.linkSelector, x.contentSelector))
    {
      match FindSource(sources, id)
      case None => None
      case Some(x) => Some(NoticeInfo(x.title, x.url, x.linkSelector, x.contentSelector))
    }

    /** `get_all_ids`: every registered board id, ascending. */
    function GetAllIds(): (ids: seq<int>)
      reads this
      requires Valid()
      ensures |ids| == |sources|
      ensures forall i :: 0 <= i < |ids| ==> ids[i] == sources[i].id
      ensures forall i, j :: 0 <= i < j < |ids| ==> ids[i] < ids[j]
    {
      seq(|sources|, i requires 0 <= i < |sources| reads this => sources[i].id)
    }

    /** The boards `user` follows (`is_active = 1`). */
    function ActiveIds(user: string): set<int>
      reads this
    {
      ActiveAmong(subscriptions, subscriptions.Keys, user)
    }

    /** `save_program_to_db`: ensures the board's table exists, then inserts one row when the NOT NULL columns allow it. */
    method SaveProgramToDb(id: int, p: Program, now: string) returns (code: int)
      requires Valid()
      modifies this
      ensures Valid()
      ensures sources == old(sources) && users == old(users) && subscriptions == old(subscriptions)
      ensures code == if Insertable(p) then 1 else -1
      ensures tables == old(tables)[id := old(Rows(id)) + if Insertable(p) then [RowOf(p, now)] else []]
      ensures Insertable(p) ==> ExistingLinks(id) == old(ExistingLinks(id)) + {GetColumn(p.link).value}
      ensures !Insertable(p) ==> ExistingLinks(id) == old(ExistingLinks(id))
      ensures forall j | j != id :: ExistingLinks(j) == old(ExistingLinks(j))
    {
      var rows := Rows(id);
      if Insertable(p) {
        tables := tables[id := rows + [RowOf(p, now)]];
        code := 1;
      } else {
        tables := tables[id := rows];
        assert rows + [] == rows;
        code := -1;
      }
    }

    /** `subscribe_user`: (re)creates the row, active and stamped now. */
    method SubscribeUser(user: string, id: int, now: string) returns (reply: Reply)
      requires Valid()
      modifies this
      ensures Valid()
      ensures sources == old(sources) && tables == old(tables) && users == old(users)
      ensures subscriptions == old(subscriptions)[(user, id) := SubRow(now, true)]
      ensures ActiveIds(user) == old(ActiveIds(user)) + {id}
      ensures reply == Reply(1, "구독 완료")
    {
      subscriptions := subscriptions[(user, id) := SubRow(now, true)];
      reply := Reply(1, "구독 완료");
    }

    /** `unsubscribe_user`: deactivates the row if there is one; succeeds either way. */
    method UnsubscribeUser(user: string, id: int) returns (reply: Reply)
      requires Valid()
      modifies this
      ensures Valid()
      ensures sources == old(sources) && tables == old(tables) && users == old(users)
      ensures subscriptions.Keys == old(subscriptions).Keys
      ensures (user, id) in subscriptions ==>
                subscriptions == old(subscriptions)[(user, id) := old(subscriptions)[(user, id)].(active := false)]
      ensures (user, id) !in old(subscriptions) ==> subscriptions == old(subscriptions)
      ensures ActiveIds(user) == old(ActiveIds(user)) - {id}
      ensures reply == Reply(1, "구독 해제 완료")
    {
      if (user, id) in subscriptions {
        subscriptions := subscriptions[(user, id) := subscriptions[(user, id)].(active := false)];
      }
      reply := Reply(1, "구독 해제 완료");
    }

    /** `update_user_subscriptions`: deactivates all of the user's rows, then (re)activates each listed board. */
    method UpdateUserSubscriptions(user: string, ids: seq<int>, now: string) returns (reply: Reply)
      requires Valid()
      modifies this
      ensures Valid()
      ensures sources == old(sources) && tables == old(tables) && users == old(users)
      ensures subscriptions == Resubscribe(old(subscriptions), user, ids, now)
      ensures ActiveIds(user) == set i | i in ids
      ensures reply == Reply(1, Text.NatToString(|ids|) + "개 구독 업데이트 완료")
    {
      subscriptions := Resubscribe(subscriptions, user, [], now);
      for i := 0 to |ids|
        invariant sources == old(sources) && tables == old(tables) && users == old(users)
        invariant subscriptions == Resubscribe(old(subscriptions), user, ids[..i], now)
      {
        ResubscribeAppend(old(subscriptions), user, ids[..i], ids[i], now);
        assert ids[..i + 1] == ids[..i] + [ids[i]];
        subscriptions := subscriptions[(user, ids[i]) := SubRow(now, true)];
      }
      assert ids[..|ids|] == ids;
      ResubscribeActive(old(subscriptions), user, ids, now);
      reply := Reply(1, Text.NatToString(|ids|) + "개 구독 업데이트 완료");
    }

    /** `get_user_subscription_ids`: each followed board once, in no particular order. */
    method GetUserSubscriptionIds(user: string) returns (ids: seq<int>)
      ensures multiset(ids) == multiset(ActiveIds(user))
    {
      ids := [];
      var rest := subscriptions.Keys;
      while rest != {}
        invariant rest <= subscriptions.Keys
        invariant multiset(ids) == multiset(ActiveAmong(subscriptions, subscriptions.Keys - rest, user))
        decreases rest
      {
        var k :| k in rest;
        var done := subscriptions.Keys - rest;
        ActiveAmongStep(subscriptions, done, k, user);
        if k.0 == user && subscriptions[k].active {
          ids := ids + [k.1];
        }
        rest := rest - {k};
        assert subscriptions.Keys - rest == done + {k};
      }
    }

    /** The joined rows `get_user_subscriptions` selects, as a set. */
    function SubscriptionViews(user: string): set<SubscriptionView>
      reads this
    {
      ViewsAmong(subscriptions, sources, subscriptions.Keys, user)
    }

    /** `get_user_subscriptions`: each active subscription of a registered board once, latest first. */
    method GetUserSubscriptions(user: string) returns (views: seq<SubscriptionView>)
      ensures multiset(views) == multiset(SubscriptionViews(user))
      ensures Sorted(views, LaterSubscribedFirst)
      ensures forall v | v in views :: v.isActive && v.notificationId in ActiveIds(user)
    {
      var acc := [];
      var rest := subscriptions.Keys;
      while rest != {}
        invariant rest <= subscriptions.Keys
        invariant multiset(acc) == multiset(ViewsAmong(subscriptions, sources, subscriptions.Keys - rest, user))
        decreases rest
      {
        var k :| k in rest;
        ViewsCollected(subscriptions, sources, rest, k, user);
        if k.0 == user && subscriptions[k].active && FindSource(sources, k.1).Some? {
          acc := acc + [ViewOf(k, subscriptions[k], FindSource(sources, k.1).value)];
        }
        rest := rest - {k};
      }
      views := Sort(acc, LaterSubscribedFirst);
      SortedViews(subscriptions, sources, user, acc);
    }

    /** The joined rows `get_notification_subscribers` selects, as a set. */
    function SubscriberViews(id: int): set<SubscriberView>
      reads this
    {
      SubscribersAmong(subscriptions, users, subscriptions.Keys, id)
    }

    /** `get_notification_subscribers`: each active, registered subscriber once, latest first. */
    method GetNotificationSubscribers(id: int) returns (subs: seq<SubscriberView>)
      ensures multiset(subs) == multiset(SubscriberViews(id))
      ensures Sorted(subs, LaterSubscriberFirst)
      ensures forall s | s in subs :: s.userId in users && id in ActiveIds(s.userId)
    {
      var acc := [];
      var rest := subscriptions.Keys;
      while rest != {}
        invariant rest <= subscriptions.Keys
        invariant multiset(acc) == multiset(SubscribersAmong(subscriptions, users, subscriptions.Keys - rest, id))
        decreases rest
      {
        var k :| k in rest;
        SubscribersCollected(subscriptions, users, rest, k, id);
        if k.1 == id && subscriptions[k].active && k.0 in users {
          acc := acc + [SubscriberView(k.0, subscriptions[k].subscribedAt, users[k.0].email)];
        }
        rest := rest - {k};
      }
      LaterSubscriberFirstStrict();
      SortSorted(acc, LaterSubscriberFirst);
      subs := Sort(acc, LaterSubscriberFirst);
      SubscribersAreActive(subscriptions, users, id, subs);
    }

    /**
     * `register_user`: `INSERT OR REPLACE` keeps the user's `subscribe` text (or '') and,
     * through the UNIQUE email, drops any other user holding the same address.
     */
    method RegisterUser(user: string, email: string) returns (reply: Reply)
      requires Valid()
      modifies this
      ensures Valid()
      ensures sources == old(sources) && tables == old(tables) && subscriptions == old(subscriptions)
      ensures user in users && users[user].email == email
      ensures users[user].subscribe == if user in old(users) then old(users)[user].subscribe else ""
      ensures forall v | v in old(users) && v != user && old(users)[v].email != email ::
                v in users && users[v] == old(users)[v]
      ensures forall v | v in users && v != user :: v in old(users) && old(users)[v].email != email
      ensures reply == Reply(1, "사용자 등록 성공")
    {
      var keep := if user in users then users[user].subscribe else "";
      users := (map v | v in users && v != user && users[v].email != email :: users[v])[user := UserRow(email, keep)];
      reply := Reply(1, "사용자 등록 성공");
    }

    /** `delete_user`: removes the user; reports -1 when no row was deleted. */
    method DeleteUser(user: string) returns (reply: Reply)
      requires Valid()
      modifies this
      ensures Valid()
      ensures sources == old(sources) && tables == old(tables) && subscriptions == old(subscriptions)
      ensures users == old(users) - {user}
      ensures reply == if user in old(users) then Reply(1, "사용자 삭제 성공") else Reply(-1, "사용자를 찾을 수 없습니다")
    {
      var found := user in users;
      users := users - {user};
      if !found {
        reply := Reply(-1, "사용자를 찾을 수 없습니다");
      } else {
        reply := Reply(1, "사용자 삭제 성공");
      }
    }

    /** `get_notification_categories`: button boards by id, and drop-down boards nested by college and department. */
    method GetNotificationCategories() returns (buttons: seq<ButtonRow>, dropdown: Dropdown)
      requires Valid()
      ensures buttons == ButtonsOf(sources)
      ensures forall j, k :: 0 <= j < k < |buttons| ==> buttons[j].id < buttons[k].id
      ensures dropdown == DropdownOf(Sort(DropdownSources(sources), DropdownBefore))
    {
      buttons := ButtonsOf(sources);
      ButtonsInIdOrder(sources);
      var rows := Sort(DropdownSources(sources), DropdownBefore);
      dropdown := map[];
      for i := 0 to |rows|
        invariant dropdown == DropdownOf(rows[..i])
      {
        var x := rows[i];
        DropdownSnoc(rows, i);
        var inner := if x.college in dropdown then dropdown[x.college] else map[];
        var group := if x.department in inner then inner[x.department] else [];
        dropdown := dropdown[x.college := inner[x.department := group + [EntryOf(x)]]];
      }
      assert rows[..|rows|] == rows;
    }

    /**
     * `get_user_notifications`: visits the followed boards in the order the id query
     * returned them (`order`), creating any missing ledger table, and serves one page.
     */
    method GetUserNotifications(user: string, limit: int, offset: int) returns (page: seq<FeedItem>, ghost order: seq<int>)
      requires Valid()
      modifies this
      ensures Valid()
      ensures sources == old(sources) && users == old(users) && subscriptions == old(subscriptions)
      ensures multiset(order) == multiset(old(ActiveIds(user)))
      ensures tables == WithEmptyTables(old(tables), order)
      ensures page == Page(old(sources), old(tables), order, offset, limit)
    {
      var ids := GetUserSubscriptionIds(user);
      order := ids;
      if ids == [] {
        page := [];
        return;
      }
      ghost var tabs := tables;
      WithNoTables(tabs);
      assert ids[..0] == [];
      var notifications := [];
      for i := 0 to |ids|
        invariant sources == old(sources) && users == old(users) && subscriptions == old(subscriptions)
        invariant tables == WithEmptyTables(tabs, ids[..i])
        invariant notifications == Pool(sources, tabs, ids[..i])
      {
        VisitStep(sources, tabs, ids, i);
        if ids[i] !in tables {
          tables := tables[ids[i] := []];
        } else {
          notifications := notifications + BoardFeed(sources, tables[ids[i]], ids[i]);
        }
      }
      assert ids[..|ids|] == ids;
      page := PySlice(Sort(notifications, NewerFirst), offset, offset + limit);
    }
  }

  /** The ledger tables after `get_user_notifications` has created every missing table of `ids`, empty. */
  function WithEmptyTables(tabs: map<int, seq<LedgerRow>>, ids: seq<int>): (r: map<int, seq<LedgerRow>>)
    ensures r.Keys == tabs.Keys + (set i | i in ids)
    ensures forall t | t in r :: r[t] == if t in tabs then tabs[t] else []
    ensures (forall t | t in tabs :: Stamped(tabs[t])) ==> forall t | t in r :: Stamped(r[t])
  {
    map t | t in tabs.Keys + (set i | i in ids) :: if t in tabs then tabs[t] else []
  }

  lemma WithNoTables(tabs: map<int, seq<LedgerRow>>)
    ensures WithEmptyTables(tabs, []) == tabs
  {
    assert (set i: int | i in []) == {};
  }

  /** Visiting one more board: its table is created if missing, and it adds exactly its own feed. */
  lemma WithEmptyTablesAppend(srcs: seq<Source>, tabs: map<int, seq<LedgerRow>>, ids: seq<int>, id: int)
    requires forall t | t in tabs :: Stamped(tabs[t])
    ensures var r := WithEmptyTables(tabs, ids);
            WithEmptyTables(tabs, ids + [id]) == if id in r then r else r[id := []]
    ensures var r := WithEmptyTables(tabs, ids);
            id in r ==> BoardFeed(srcs, r[id], id) == TableFeed(srcs, tabs, id)
    ensures id !in WithEmptyTables(tabs, ids) ==> TableFeed(srcs, tabs, id) == []
  {
    var r := WithEmptyTables(tabs, ids);
    assert WithEmptyTables(tabs, ids + [id]).Keys == if id in r then r.Keys else r.Keys + {id};
  }

  /** The loop's step over the `i`-th board, in the terms of its invariant. */
  lemma VisitStep(srcs: seq<Source>, tabs: map<int, seq<LedgerRow>>, ids: seq<int>, i: nat)
    requires forall t | t in tabs :: Stamped(tabs[t])
    requires i < |ids|
    ensures var r := WithEmptyTables(tabs, ids[..i]);
            && WithEmptyTables(tabs, ids[..i + 1]) == (if ids[i] in r then r else r[ids[i] := []])
            && Pool(srcs, tabs, ids[..i + 1]) ==
               Pool(srcs, tabs, ids[..i]) + (if ids[i] in r then BoardFeed(srcs, r[ids[i]], ids[i]) else [])
  {
    assert ids[..i + 1] == ids[..i] + [ids[i]];
    assert ids[..i + 1][..i] == ids[..i];
    WithEmptyTablesAppend(srcs, tabs, ids[..i], ids[i]);
  }

  /** The subscription table after `update_user_subscriptions(user, ids)`. */
  function Resubscribe(subs: map<(string, int), SubRow>, user: string, ids: seq<int>, now: string)
    : (r: map<(string, int), SubRow>)
    ensures r.Keys == subs.Keys + (set i | i in ids :: (user, i))
    ensures forall k | k in subs && k.0 != user :: r[k] == subs[k]
    ensures forall i | i in ids :: r[(user, i)] == SubRow(now, true)
    ensures forall k | k in r && k.0 == user :: r[k].active <==> k.1 in ids
  {
    map k | k in subs.Keys + (set i | i in ids :: (user, i)) ::
      if k.0 == user && k.1 in ids then SubRow(now, true)
      else if k.0 == user then subs[k].(active := false)
      else subs[k]
  }

  /** After the update the user follows exactly the listed boards. */
  lemma ResubscribeActive(subs: map<(string, int), SubRow>, user: string, ids: seq<int>, now: string)
    ensures var r := Resubscribe(subs, user, ids, now); ActiveAmong(r, r.Keys, user) == set i | i in ids
  {
    var r := Resubscribe(subs, user, ids, now);
    forall i ensures i in ActiveAmong(r, r.Keys, user) <==> i in ids {
      if i in ids {
        assert (user, i) in r;
      }
    }
  }

  lemma ResubscribeAppend(subs: map<(string, int), SubRow>, user: string, ids: seq<int>, id: int, now: string)
    ensures Resubscribe(subs, user, ids + [id], now) == Resubscribe(subs, user, ids, now)[(user, id) := SubRow(now, true)]
  {
    var a := Resubscribe(subs, user, ids + [id], now);
    var b := Resubscribe(subs, user, ids, now)[(user, id) := SubRow(now, true)];
    assert a.Keys == b.Keys;
    forall k | k in a ensures a[k] == b[k] {
    }
  }
}
