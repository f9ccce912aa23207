# Notice crawler, ledger and calendar export: a Dafny model

This project models the core of a notice aggregator for university bulletin boards.

- **Crawl driver** (`main.py`). It collects every board's new notices. It splits them into fast-host notices and per-host groups. It fetches each notice with a bounded retry and keeps the successful fetches.
- **Incremental diff** (`tools/fetch.py`). It compares the links scraped from a board with the links already in that board's ledger table. It also covers how a notice URL becomes a request, the record a fetch produces, and saving a notice to the ledger.
- **SQLite store** (`db/db.py`, `website/dbWeb.py`). This covers:
  - the board registry and the per-board ledger tables;
  - the users and their subscriptions;
  - the feed, subscription and category queries.
  
  Both files run the same SQL, so the store is modelled once, as the class `NoticeStore.NoticeDB`. Each method's contract states the database as its own connection sees it after the call. The two files commit differently:
  - `db/db.py` opens its connection with `autocommit=True`, so each write lasts at once;
  - `website/dbWeb.py` uses `sqlite3`'s default mode, where a write opens a transaction that only `__exit__` commits. The website builds `DB(...)` without `with`, so its writes are rolled back when the connection is closed (see "## Left out").
- **Calendar serialisers**:
  - `calendar_OAuth_option.py`: the date recognisers, the iCalendar export (`_ics_escape`, `_ext_id`, `_ics_event`, `items_to_ics`) and the Google Calendar event body.
  - `calendar.py`: the "add to Google Calendar" link, including the percent-encoding of its query.
  
  The date helpers of the two files are the same code. The model cites the copy in `calendar_OAuth_option.py`.
- **Summary workflow** (`Workflow.py`). This is the state record the graph's nodes update in place. The router `check_summary_quality` counts the retries in the state it is given and sends a failed summary back while that count is below three.
- **JSON-span extraction** (`SummaryContent.py`, `Summary.py`). The answer is cut from the first `{` to the last `}`, and kept only when it parses.
- **Image file naming** (`src/developing/html_parse_img.py`). It covers the base name, the fallback `image_NNN.ext`, and the `stem_k.ext` collision loop.

## How the model is built

- The outside world is passed in as functions:
  - page scraping;
  - the network and per-site extraction;
  - HTML cleaning;
  - SHA-1 with base32;
  - the language model and the JSON parser;
  - the OCR and mail tools;
  - each image download's outcome, as a sequence with one entry per position in the URL list, because every position sends its own request.
- The clock is passed in as values: `now`, the current year, today's date and the `DTSTAMP`.
- Python exceptions that the code lets escape are a `Result` (`Ok` or `Raised(ValueError | OverflowError)`).
- The store is a class. Its fields are the registry, the ledger map, the users map and the subscriptions map. Its methods update them in place.
- The thread pools become sequential loops.
  - `crawl_all_content` reads the futures in submission order, so its result order is promised exactly.
  - `main` collects the summary futures with `as_completed`, so only the multiset of written entries is promised.
- Regular expressions are matched by a small greedy token matcher (`Regex`). It is exact for the patterns the date code uses, because no quantified token there is followed by one that could take back what it consumed.

## Behaviours the lemmas pin down

These follow from the code as written, and the model keeps them.

- **A range's `DTEND` is its last day.** A deadline range keeps its last day as `DTEND`. The single-date branch writes the day after instead (`Ics.RangeDeadlineLastDay` against `Ics.IsoDeadlineOneDay`). A client that reads `DTEND` as exclusive (RFC 5545, section 3.6.1) therefore shows a range one day short.
- **A deadline read as empty is handled differently by the two exporters.** Such a deadline is `"null"`, `"none"`, `"nan"` or blank. The iCalendar event gets no `DTSTART`/`DTEND` at all. The Google Calendar body falls back to the posting date (`EventBody.NullDeadlineExporters`).
- **A dotted deadline raises.** A deadline such as `2024.12.31` is neither a range nor a date and time. It reaches `map(int, deadline.split("-"))` and raises `ValueError`, both in `_ics_event` (`Ics.DottedDeadlineRaises`) and in `_format_dates_for_gcal` (`GcalLink.DottedDeadlineDates`).
- **One failing item fails the whole export.** `items_to_ics` has no per-item recovery: it raises exactly when some item it looks at raises (`Ics.CollectRaises`).
- **A deduplicated UID can still raise.** The UID check comes after the event is built, so an item whose UID was already seen can still raise.
- **Links can repeat in a ledger.** There is no UNIQUE constraint on `link`, so saving the same link twice stores two rows. The membership set `get_existing_links` returns is unchanged (`NoticeStore.NoticeDB.SaveProgramToDb`).
- **`main` never updates the ledger.** The call to `save_new_notification` is commented out, so a second run finds the same notices again. `Fetch.RerunFindsNothing` states what happens once the found links *are* saved.
- **The worker pool has no ceiling.** `main.py:73` allows one worker per host group plus up to twenty for fast notices (`Crawler.WorkerCount`).

## Model

| member | source | states |
|---|---|---|
| Crawler.RemoveUnsafe | main.py:24 | `urlsplit` deletes tab, CR and LF everywhere; text without them is unchanged |
| Crawler.Authority | main.py:24 | the netloc is a prefix of what follows `//` and holds no `/`, `?` or `#` |
| Crawler.NetlocOfUrl | main.py:24 | the netloc of `scheme://host/path` is `host`, so notices are grouped by their host |
| Crawler.FastOf | main.py:25-26 | the fast list holds only notices of fast hosts, taken from the input |
| Crawler.GroupOf | main.py:27-28 | a host's group holds only notices of that host that are not fast |
| Crawler.DomainOrder | main.py:20-28 | the group keys, each once (dictionary insertion order) |
| Crawler.DomainOrderMembers | main.py:23-28 | a host is a group key exactly when some notice that is not fast comes from it |
| Crawler.CategorizeStep | main.py:23-28 | one more notice joins exactly one of the fast list or its host's group, and a new host is appended to the key order |
| Crawler.CategorizedFast | main.py:25-26 | a fast notice extends the fast list and keeps the categorisation invariant |
| Crawler.CategorizedKnown | main.py:27-28 | a notice of a known host extends that host's group |
| Crawler.CategorizedNew | main.py:27-28 | a notice of a new host opens its group and appends the host to the key order |
| Crawler.CategorizeNotifications | main.py:18-30 | the fast list, the host order and each group are exactly those of the input; the groups are keyed by exactly the listed hosts |
| Crawler.GroupsConcatGrow | main.py:87-89 | one more notice adds itself once to the grouped work when its host is listed, and nothing otherwise |
| Crawler.NewHostGroup | main.py:87-89 | a notice of a new host forms that host's group alone, after the other groups |
| Crawler.GroupOfUnseen | main.py:27-28 | a host that is not a key has no group |
| Crawler.ScheduledIsPermutation | main.py:82-89 | the fast tasks and the group tasks together hand out every new notice exactly once |
| Crawler.ScheduledSnoc | main.py:82-89 | one more notice adds exactly itself to the work handed out |
| Crawler.AttemptsFrom | main.py:38-49 | from attempt `a`, attempts continue while they fail, up to `max_retries + 1` in all |
| Crawler.AttemptsMade | main.py:34-49 | between 1 and 3 attempts; all but the last fail; the last succeeds unless all three were made |
| Crawler.Retried | main.py:39-52 | the record returned is the last attempt's, tagged with the notice's board id and category |
| Crawler.RetriedContent | main.py:39-41 | the retried record keeps the notice's title and link |
| Crawler.RetriedSucceedsIff | main.py:38-52 | the retried fetch succeeds exactly when one of attempts 0, 1 or 2 succeeds |
| Crawler.FetchWithRetry | main.py:32-52 | the method makes `AttemptsMade` attempts and returns `Retried`; it sleeps once per failed attempt that is followed by another, 0.5 s for fast notices and 1.0 s otherwise |
| Crawler.ProcessDomainGroup | main.py:54-62 | a group's results are its notices' retried fetches, in order |
| Crawler.WorkerCount | main.py:72-73 | at least one worker and one per host group; fast notices add between 1 and 20; never more than groups plus fast notices unless both are zero |
| Crawler.CrawlAllContent | main.py:64-105 | one result per notice: the fast notices' retried fetches, then each group's in host order; the pool size is `WorkerCount` |
| Crawler.ProcessGroups | main.py:87-101 | the group tasks' results, host after host, in the order the hosts were first seen |
| Crawler.Results | main.py:92-101 | one result per notice |
| Crawler.ResultsAt | main.py:92-101 | the `i`-th result is the retried fetch of the `i`-th notice handed out |
| Crawler.ResultsAppend | main.py:96-100 | the results of two runs of work, one after the other, are the results of the combined work |
| Crawler.ResultsMembers | main.py:92-101 | a record is among the results exactly when it is the retried fetch of some notice |
| Crawler.ProcessAiSummary | main.py:113-118 | the record passes through unchanged, with an empty `ai_summary` |
| Crawler.SummaryInputs | main.py:149-152 | no more entries go to the summary step than there are results |
| Crawler.SummaryInputsMembers | main.py:149-152 | an entry goes to the summary step exactly when its fetch succeeded |
| Crawler.CollectNewNotifications | main.py:126-131 | every board's new notices, board by board, in the order of the board ids |
| Crawler.SummarizeSuccesses | main.py:145-160 | the successful records, each passed through `process_ai_summary` |
| Crawler.AllNewAreUnseen | main.py:127-131 | every collected notice belongs to a listed board, and its link is not yet in that board's ledger |
| Crawler.RunCrawl | main.py:120-168 | nothing is written exactly when no board has new notices; otherwise the written entries are, as a multiset, the summary inputs of the successful retried fetches of every new notice |
| Crawler.WrittenEntries | main.py:141-166 | every written entry is a successful retried fetch of a collected notice, with an empty summary, and every such fetch is written |
| Crawler.TrimControls | main.py:24 | the text left once `urlsplit` has stripped the leading C0 controls and spaces starts with neither |
| Crawler.AfterScheme | main.py:24 | specification function: what follows a valid scheme and its colon, or the whole text; `Crawler.Authority` and `Crawler.NetlocOfUrl` state its use |
| Crawler.Netloc | main.py:24 | specification function for `urlparse(link).netloc`; `Crawler.NetlocOfUrl` states its value on `scheme://host/path` |
| Crawler.DomainOf | main.py:24 | specification function: a notice's host, as `Crawler.Netloc` of its link |
| Crawler.IsFast | main.py:25 | specification predicate: the host is in `fast_domains` (`scatch.ssu.ac.kr`); `Crawler.FastOf` and `Crawler.CategorizeNotifications` state its use |
| Crawler.RetryDelayMs | main.py:35 | specification function: 500 ms in fast mode, 1000 ms otherwise; `Crawler.FetchWithRetry` states the total pause |
| Fetch.Unseen | tools/fetch.py:210-220 | the diff is no longer than the scraped list |
| Fetch.UnseenMembers | tools/fetch.py:210-220 | an item is in the diff exactly when it comes from a scraped link whose URL the ledger lacks |
| Fetch.UnseenNone | tools/fetch.py:210-220 | when the ledger holds every scraped URL, the diff is empty |
| Fetch.Reverse | tools/fetch.py:223 | `[::-1]`: the `i`-th element is the `i`-th from the end |
| Fetch.ReverseMembers | tools/fetch.py:223 | reversing keeps exactly the same elements |
| Fetch.GetNewNotifications | tools/fetch.py:189-227 | an unknown board gives nothing; otherwise the scraped links whose URL is not in the ledger, as items, last one first |
| Fetch.NewItemsAreUnseen | tools/fetch.py:198-223 | an item is new exactly when it comes from one of the first ten scraped links whose URL is not in the ledger, and it carries the board's title and content selector |
| Fetch.RerunFindsNothing | tools/fetch.py:204-223 | once every returned link is in the ledger, the same page gives no new items |
| Fetch.LawyerRequest | tools/fetch.py:237-241 | a lawyer-board URL `base?post=id` becomes a POST to `base` with that post id |
| Fetch.MediambaRequest | tools/fetch.py:263-270 | a media-MBA page URL becomes a GET of the API URL for its last path segment |
| Fetch.CleanHtmlContent | tools/fetch.py:326-334 | empty or whitespace-only input comes back unchanged; other input goes through the cleaner |
| Fetch.FetchContent | tools/fetch.py:229-324 | the title and link are echoed; success exactly when the request returns; a failure has empty content and the error text; a success has no error and the cleaned content |
| Fetch.ProgramOf | tools/fetch.py:369-375 | the saved program has its link and title, so the NOT NULL columns allow it, and its stamp is `None` |
| Fetch.SaveNewNotification | tools/fetch.py:366-381 | the code is 1; the notice's link joins its board's links and no other board's links change |
| Fetch.NewNotifications | tools/fetch.py:189-227 | specification function for `get_new_notifications`; `Fetch.GetNewNotifications`, `Fetch.NewItemsAreUnseen` and `Fetch.RerunFindsNothing` state its value |
| Fetch.RequestFor | tools/fetch.py:237-270 | specification function for the URL rewriting; `Fetch.LawyerRequest` and `Fetch.MediambaRequest` state its two rewrites |
| NoticeStore.StampColumn | db/db.py:105 | the corrected stamp, which the store class uses: a `None` stamp takes the column's `DEFAULT CURRENT_TIMESTAMP`, so the column is always filled; a text stamp is stored as given. The code as written binds `None` as NULL instead (`StampAsWritten`) |
| NoticeStore.RowOf | db/db.py:121-131 | the inserted row carries the program's link and title, and has a stamp under the corrected rule of `StampColumn` |
| NoticeStore.StampAsWritten | db/db.py:127 | a `None` stamp goes into the column as an explicit NULL |
| NoticeStore.PageAsWritten | db/db.py:356-361 | when sorting meets a NULL stamp, the handler answers with an empty page; the page never exceeds `limit` |
| NoticeStore.NullStampsHideFeed | db/db.py:317-361 | two notices saved with a `None` stamp give their subscriber an empty feed |
| NoticeStore.NewerFirstStrict | db/db.py:340 | newest-first on timestamp text is a strict order |
| NoticeStore.LaterSubscribedFirstStrict | website/dbWeb.py:145 | latest-subscription-first is a strict order |
| NoticeStore.LaterSubscriberFirstStrict | website/dbWeb.py:204 | latest-subscriber-first is a strict order |
| NoticeStore.DropdownBeforeStrict | db/db.py:290 | `ORDER BY college, department, major`, with NULL first, is a strict order |
| NoticeStore.FindSource | db/db.py:159-165 | `WHERE id = ?` finds a registry row with that id, or none exists |
| NoticeStore.ButtonsOf | db/db.py:277-283 | exactly the button boards, each as its selected columns |
| NoticeStore.ButtonsInIdOrder | db/db.py:277-283 | the button rows keep the registry's order, so on a registry with increasing ids they come out in strictly increasing id order (`ORDER BY id`) |
| NoticeStore.DropdownSources | db/db.py:286-292 | exactly the drop-down boards |
| NoticeStore.Group | db/db.py:305-310 | a (college, department) pair lists only entries of its own rows, and none when no row has that pair |
| NoticeStore.DropdownSnoc | db/db.py:296-310 | one more row appends its entry under its college and department, creating either level if missing |
| NoticeStore.DropdownGroups | db/db.py:295-310 | a college or a (college, department) pair is a key exactly when some row carries it, and it lists exactly that pair's rows in row order |
| NoticeStore.DropdownKeys | db/db.py:299-303 | the key levels are exactly the colleges and pairs the rows carry |
| NoticeStore.DropdownEntries | db/db.py:305-310 | each pair lists its rows' entries in row order |
| NoticeStore.GroupAppend | db/db.py:305-310 | one more row adds its entry to its own pair's list and to no other |
| NoticeStore.FeedItems | db/db.py:344-350 | one feed entry per row, in order |
| NoticeStore.Take10 | db/db.py:341 | `LIMIT 10`: the first `min(10, n)` rows |
| NoticeStore.TableFeed | db/db.py:328-350 | a board contributes at most ten entries, and none when its table is missing or the board is unregistered |
| NoticeStore.BoardFeed | db/db.py:336-350 | at most ten of the board's rows, and none when the join finds no registry row |
| NoticeStore.TableFeedSorted | db/db.py:340 | each board's contribution is newest first |
| NoticeStore.Pool | db/db.py:328-353 | the collected entries number at most ten per followed board |
| NoticeStore.PageProperties | db/db.py:356-357 | a page is newest first, has at most `limit` entries, and holds only collected entries |
| NoticeStore.FeedShowsEverySavedRow | db/db.py:356-357 | with stamps always present, a first page large enough shows every collected entry |
| NoticeStore.ViewsAreActive | website/dbWeb.py:144 | every listed subscription is active and names a followed board |
| NoticeStore.SortedViews | website/dbWeb.py:139-146 | sorting keeps the selected rows, orders them latest first, and keeps them active |
| NoticeStore.SubscribersAreActive | website/dbWeb.py:199-205 | every listed subscriber is a registered user who follows the board |
| NoticeStore.NoticeDB.constructor | db/db.py:37-95 | a fresh store holding the registry and nothing else |
| NoticeStore.NoticeDB.Valid | db/db.py:37-110 | specification predicate: ids strictly increase in the registry, emails are unique, and every ledger row has a stamp under the corrected rule; every state-changing method keeps it |
| NoticeStore.GetColumn | db/db.py:126 | specification function: `program.get(key)`, a missing key read as `None` |
| NoticeStore.GetColumnOrNullText | db/db.py:127-129 | specification function: `program.get(key, 'null')`, a missing key read as the text `null` |
| NoticeStore.AiJsonColumn | db/db.py:130 | specification function: `str(...)` of a value that is not a dictionary |
| NoticeStore.Insertable | db/db.py:104-106 | specification predicate: the NOT NULL columns `link` and `title` get values; `NoticeStore.NoticeDB.SaveProgramToDb` states the two outcomes |
| NoticeStore.SortRaises | db/db.py:356-361 | specification predicate: two or more entries and one NULL stamp, so the sort compares `None`; `NoticeStore.PageAsWritten` states the handler's `[]` |
| NoticeStore.DropdownOf | db/db.py:295-310 | specification function for the nested drop-down dictionary; `NoticeStore.DropdownGroups` states its keys and entries |
| NoticeStore.Page | db/db.py:356-357 | specification function for the page served; `NoticeStore.PageProperties` and `NoticeStore.FeedShowsEverySavedRow` state its properties |
| NoticeStore.NoticeDB.ExistingLinks | db/db.py:136-152 | no links when the board's table is missing; otherwise exactly the links of its rows |
| NoticeStore.NoticeDB.GetNotificationInfo | db/db.py:154-177 | `None` exactly for an unregistered id; otherwise that board's title, URL and selectors |
| NoticeStore.NoticeDB.GetAllIds | db/db.py:179-192 | every registered id, in strictly ascending order |
| NoticeStore.NoticeDB.SaveProgramToDb | db/db.py:115-134 | code 1 and one more row when link and title are present, otherwise code -1 and no row; the table exists afterwards; the link joins that board's links and no other board's links change; the row's stamp follows the corrected rule of `StampColumn` |
| NoticeStore.NoticeDB.SubscribeUser | website/dbWeb.py:105-117 | within the connection, before any commit: the (user, board) row is replaced by an active one stamped now; the board joins the user's followed boards |
| NoticeStore.NoticeDB.UnsubscribeUser | website/dbWeb.py:119-132 | within the connection, before any commit: only the (user, board) row changes, to inactive, and nothing changes when there is no such row; the board leaves the user's followed boards; success either way |
| NoticeStore.NoticeDB.UpdateUserSubscriptions | website/dbWeb.py:169-192 | within the connection, before any commit: the user then follows exactly the listed boards, other users' rows are untouched, and the message counts the ids given |
| NoticeStore.NoticeDB.GetUserSubscriptionIds | db/db.py:255-269 | each followed board exactly once |
| NoticeStore.NoticeDB.SubscriptionViews | website/dbWeb.py:139-146 | specification function: the joined rows `get_user_subscriptions` selects, as a set; `NoticeStore.NoticeDB.GetUserSubscriptions` returns each once, latest first, and `NoticeStore.ViewsAreActive` states that all are active |
| NoticeStore.NoticeDB.GetUserSubscriptions | website/dbWeb.py:134-167 | each active subscription of a registered board exactly once, latest first, all active and followed |
| NoticeStore.NoticeDB.SubscriberViews | website/dbWeb.py:199-205 | specification function: the joined rows `get_notification_subscribers` selects, as a set; `NoticeStore.NoticeDB.GetNotificationSubscribers` returns each once, latest first, and `NoticeStore.SubscribersAreActive` states that all are registered and active |
| NoticeStore.NoticeDB.GetNotificationSubscribers | website/dbWeb.py:194-220 | each active subscriber with a user row exactly once, latest first |
| NoticeStore.NoticeDB.RegisterUser | db/db.py:363-375 | the user gets the email and keeps an existing `subscribe` value or `''`; another user holding that email is dropped; everyone else is untouched |
| NoticeStore.NoticeDB.DeleteUser | db/db.py:377-391 | the user row is removed; code -1 exactly when there was none; subscriptions stay, as foreign keys are not enforced |
| NoticeStore.NoticeDB.GetNotificationCategories | db/db.py:271-315 | the button boards in strictly increasing id order (`ORDER BY id`), and the drop-down boards nested by college and department in query order |
| NoticeStore.NoticeDB.GetUserNotifications | db/db.py:317-361 | missing tables of followed boards are created empty, and the page is the feed page of the boards in the order visited, on a store whose rows carry the corrected stamps |
| NoticeStore.WithEmptyTables | db/db.py:330-333 | every visited board has a table afterwards; existing tables are unchanged and new ones are empty |
| NoticeStore.WithEmptyTablesAppend | db/db.py:328-353 | visiting one more board creates its table if missing and adds exactly its own feed |
| NoticeStore.Resubscribe | db/db.py:202-214 | after deactivating and re-inserting, the user's rows are active exactly for the listed boards; other users' rows are unchanged |
| NoticeStore.ResubscribeActive | db/db.py:202-214 | after the update, the user follows exactly the listed boards |
| NoticeStore.ResubscribeAppend | db/db.py:209-214 | one more id replaces its row with an active one stamped now |
| Lists.Insert | db/db.py:356 | inserting adds exactly one element |
| Lists.InsertSorted | db/db.py:356 | inserting into a sorted list keeps it sorted |
| Lists.Sort | db/db.py:356 | sorting is a permutation |
| Lists.SortSorted | db/db.py:356 | the sorted list is in order for any strict order |
| Lists.PageLength | db/db.py:357 | `s[offset:offset + limit]` holds at most `limit` elements, whatever the sign of `offset` |
| Lists.SliceMultiset | db/db.py:357 | a slice takes only elements of the list |
| Lists.SliceSorted | db/db.py:357 | a slice of a sorted list is sorted |
| Lists.FirstPage | db/db.py:357 | a page from 0 keeps the first `min(limit, n)` elements |
| Lists.TextLessTransitive | db/db.py:340 | SQLite's BINARY text order is transitive |
| Lists.PySlice | db/db.py:357 | specification function for Python's `s[start:stop]`; `Lists.PageLength`, `Lists.SliceSorted`, `Lists.SliceMultiset` and `Lists.FirstPage` state its properties |
| Lists.TextLess | db/db.py:340 | specification predicate for SQLite's BINARY text order; `Lists.TextLessTransitive` and `NoticeStore.NewerFirstStrict` state that it is a strict order |
| Wrappers.FirstSomeIsFirst | calendar_OAuth_option.py:66-74 | the result of a first-match loop comes from some pattern, and every earlier pattern gave nothing |
| Wrappers.FirstSomeNone | calendar_OAuth_option.py:66-74 | a first-match loop gives nothing exactly when every pattern gives nothing |
| DateText.CleanDate | calendar_OAuth_option.py:32-43 | `None`, other values, blank text and null/none/nan in any case become `None`; other text is stripped; dates become their ISO date |
| DateText.CleanText | calendar_OAuth_option.py:36-40 | text is `None` exactly when blank or a null word, and otherwise stripped |
| DateText.CleanDateIdempotent | calendar_OAuth_option.py:32-43 | cleaning a cleaned date changes nothing |
| DateText.CleanTextIdempotent | calendar_OAuth_option.py:36-40 | cleaning cleaned text changes nothing |
| DateText.CleanIso | calendar_OAuth_option.py:36-40 | an ISO date passes through unchanged |
| DateText.FirstYmd | calendar_OAuth_option.py:117-137 | a matching weekday or time pattern yields exactly three groups |
| DateText.ThreeParts | calendar_OAuth_option.py:140-155 | a split is used only when it gives three parts |
| DateText.NormalizeDateString | calendar_OAuth_option.py:102-174 | empty text is not a date |
| DateText.SeparatedYmd | calendar_OAuth_option.py:139-155 | a date results exactly when splitting at `.`, `/` or `-` gives three parts |
| DateText.WordedYmd | calendar_OAuth_option.py:157-172 | a date results exactly when `YYYY년 M월 D일` or `M월 D일` matches at the start |
| DateText.PairHit | calendar_OAuth_option.py:66-72 | a range pattern's hit has two non-empty normalised halves |
| DateText.PairHits | calendar_OAuth_option.py:66-72 | one outcome per range pattern, in order |
| DateText.ParseDateRange | calendar_OAuth_option.py:45-74 | empty text has no range |
| DateText.DatetimeHit | calendar_OAuth_option.py:92-98 | a hit has a non-empty normalised date |
| DateText.DatetimeHits | calendar_OAuth_option.py:92-98 | one outcome per date-and-time pattern, in order |
| DateText.ParseDatetime | calendar_OAuth_option.py:76-100 | empty text has no date and time |
| DateText.DatetimeNeedsColon | calendar_OAuth_option.py:85-90 | text without `:` has no date and time |
| DateText.ClockSecond | calendar_OAuth_option.py:85-90 | each date-and-time pattern's second group starts with a clock |
| DateText.RangeNeedsLength | calendar_OAuth_option.py:54-64 | text shorter than 17 characters and without `월` has no range |
| DateText.RangeShapeFacts | calendar_OAuth_option.py:54-64 | the four numeric range patterns are two full dates with a separator; the Korean ones name `월` in their first group |
| DateText.NumericPairMin | calendar_OAuth_option.py:55-58 | a numeric range needs at least 17 characters |
| DateText.YmdInts | calendar_OAuth_option.py:278 | `map(int, s.split("-"))` unpacks into three integers or raises `ValueError` |
| DateText.YmdIntsIso | calendar_OAuth_option.py:278 | an ISO date reads back as its year, month and day |
| DateText.ToDate | calendar_OAuth_option.py:176-186 | a parsed date is a valid date; empty text gives none |
| DateText.DateToksAt | calendar_OAuth_option.py:55 | `\d{4}[.\-/]\d{1,2}[.\-/]\d{1,2}` matches a numeric date that no digit follows |
| DateText.LeadingBlocked | calendar_OAuth_option.py:111-137 | without `)` or `:`, no weekday or time pattern matches |
| DateText.LeadingNeedSeparator | calendar_OAuth_option.py:111-137 | without `.`, `-` or `/`, no weekday or time pattern matches |
| DateText.NormalizeNumeric | calendar_OAuth_option.py:139-155 | a dotted, slashed or dashed numeric date becomes `Y-MM-DD`, with the month and day padded |
| DateText.NormalizeAfterLeading | calendar_OAuth_option.py:139-155 | when no leading pattern matches, the first separator that splits into three parts decides the date |
| DateText.NormalizeNeedsMarks | calendar_OAuth_option.py:102-174 | text without `.`, `-`, `/` or `월` is not a date |
| DateText.NormalizeKorean | calendar_OAuth_option.py:158-168 | `YYYY년 M월 D일`, with any whitespace after 년 and 월, becomes `YYYY-MM-DD` |
| DateText.KoreanMatch | calendar_OAuth_option.py:159 | the Korean pattern matches the whole text, capturing year, month and day |
| Civil.DaysInMonth | calendar_OAuth_option.py:280 | 28 to 31 days; February has 29 exactly in a leap year |
| Civil.MakeDate | calendar_OAuth_option.py:280 | `date(y, m, d)` raises `ValueError` exactly outside the calendar |
| Civil.NextDay | calendar_OAuth_option.py:280 | `+ timedelta(days=1)` gives a valid date, and raises `OverflowError` exactly after 9999-12-31 |
| Civil.NextDayNumber | calendar_OAuth_option.py:280 | the next day is one ordinal later |
| Civil.AddHour | calendar_OAuth_option.py:267 | `+ timedelta(hours=1)` keeps the minute and second, and raises exactly in the last hour of 9999-12-31 |
| Civil.AddHourSeconds | calendar_OAuth_option.py:267 | one hour later is exactly 3600 seconds later |
| Civil.IsoDateShape | calendar_OAuth_option.py:42 | `isoformat()` gives ten digits and dashes |
| Civil.IsoDate | calendar_OAuth_option.py:42 | specification function for `date.isoformat()`, `YYYY-MM-DD`; `Civil.IsoDateShape` states its shape and `Civil.StrptimeIsoDate` that `strptime` reads it back |
| Civil.StrfDateCompact | calendar_OAuth_option.py:279-280 | for four-digit years, `strftime("%Y%m%d")` and `{y:04d}{m:02d}{d:02d}` agree |
| Civil.StrptimeDate | calendar_OAuth_option.py:181-183 | `strptime` accepts only valid dates |
| Civil.StrptimeDateTime | calendar_OAuth_option.py:266 | `strptime` accepts only valid date-times |
| Civil.StrptimeIsoDate | calendar_OAuth_option.py:181-183 | `strptime("%Y-%m-%d")` reads back what `isoformat` wrote |
| Civil.IsLeap | calendar_OAuth_option.py:280 | specification predicate: the Gregorian leap-year rule `date` uses; `Civil.DaysInMonth` states its use |
| Civil.ValidDate | calendar_OAuth_option.py:280 | specification predicate: what `date(y, m, d)` accepts; `Civil.MakeDate` states that exactly these dates are accepted |
| Civil.StrfYear | calendar_OAuth_option.py:280 | specification function: `%Y` as glibc writes it, the year without padding |
| Civil.StrfDate | calendar_OAuth_option.py:280 | specification function for `strftime("%Y%m%d")`; `Civil.StrfDateCompact` states its agreement with `{y:04d}{m:02d}{d:02d}` |
| Civil.StrfCompact | calendar_OAuth_option.py:266-267 | specification function for `strftime("%Y%m%dT%H%M%S")`; `Ics.DatetimeDeadlineOneHour` and `GcalLink.ClockDeadlineOneHour` state its use |
| Civil.StrfIso | calendar_OAuth_option.py:438-439 | specification function for `strftime("%Y-%m-%dT%H:%M:%S")`; `EventBody.TimedWhens` states its use |
| Ics.NormalizeNewlines | calendar_OAuth_option.py:200 | no CR is left after normalising |
| Ics.EscapeEach | calendar_OAuth_option.py:201 | the escaped text has no newline |
| Ics.ChainEscapesEach | calendar_OAuth_option.py:201 | the chain of four replacements escapes each character on its own |
| Ics.EscapeOne | calendar_OAuth_option.py:201 | on one character, the chain gives that character's escape |
| Ics.IcsEscape | calendar_OAuth_option.py:198-201 | the value is one physical line, and unescaping it gives the text back up to newline normalisation (RFC 5545, section 3.3.11) |
| Ics.UnescapeEscape | calendar_OAuth_option.py:201 | unescaping inverts the per-character escape |
| Ics.CrlfJoinTerminates | calendar_OAuth_option.py:203-205 | every content line, the last included, ends with CRLF (RFC 5545, section 3.1) |
| Ics.TerminatedAppend | calendar_OAuth_option.py:203-205 | CRLF-terminated line blocks concatenate |
| Ics.Framed | calendar_OAuth_option.py:203-205 | a framed block starts with its first line and ends with its last |
| Ics.TrimEndChar | calendar_OAuth_option.py:195 | `rstrip(c)` is a prefix that does not end in `c`, and is the whole text when `c` is absent |
| Ics.DigestText | calendar_OAuth_option.py:195 | a base32 digest has no padding and lower-cases to letters and the digits 2 to 7 |
| Ics.ExtId | calendar_OAuth_option.py:188-195 | `as_` followed by 24 lower-case base32 characters |
| Ics.ExtIdByKey | calendar_OAuth_option.py:193-195 | items with the same link and the same deadline-or-title share their identifier |
| Ics.IcsUid | calendar_OAuth_option.py:207-208 | 41 characters: the identifier then `@autoscheduler` |
| Ics.VEvent | calendar_OAuth_option.py:242-296 | the component opens with `BEGIN:VEVENT` and closes with `END:VEVENT` |
| Ics.IcsEvent | calendar_OAuth_option.py:210-296 | `""` exactly without a truthy deadline and a posting date; otherwise a VEVENT |
| Ics.SingleDayIso | calendar_OAuth_option.py:276-282 | an ISO date gives that day and the next as DTSTART and DTEND, and raises only for 9999-12-31 |
| Ics.SingleDayLines | calendar_OAuth_option.py:276-282 | specification function for the single-date branch of `_ics_event`; `Ics.SingleDayIso` states that an ISO date gives that day and the next, and raises only for 9999-12-31 |
| Ics.IsoDeadlineSingle | calendar_OAuth_option.py:250-282 | an ISO deadline is neither a range nor a date and time |
| Ics.IsoDeadlineOneDay | calendar_OAuth_option.py:250-282 | a deadline written as an ISO date is an all-day event that ends the day after |
| Ics.DeadlineSchedule | calendar_OAuth_option.py:250-283 | a truthy deadline alone decides the schedule lines |
| Ics.DatetimeDeadlineOneHour | calendar_OAuth_option.py:263-272 | a date-and-time deadline is a one-hour event, `ValueError` when the time does not parse, or `OverflowError` in the last hour of 9999-12-31 |
| Ics.DatetimeLines | calendar_OAuth_option.py:263-272 | specification function for the date-and-time branch of `_ics_event`; `Ics.DatetimeDeadlineOneHour` states the one-hour event and its errors |
| Ics.DottedDeadlineRaises | calendar_OAuth_option.py:274-282 | a short deadline without `-`, `:` or `월` makes `_ics_event` raise `ValueError` |
| Ics.DottedLinesRaise | calendar_OAuth_option.py:274-282 | such a deadline reaches the single-date split, which raises |
| Ics.IsoWithoutDashes | calendar_OAuth_option.py:257-258 | removing the dashes from `YYYY-MM-DD` gives `YYYYMMDD` |
| Ics.RangeDeadlineLastDay | calendar_OAuth_option.py:253-260 | a range's DTEND is its last day, not the day after |
| Ics.ItemsToIcs | calendar_OAuth_option.py:298-333 | the document, or the exception of the first failing item |
| Ics.CollectRaisedSticks | calendar_OAuth_option.py:312-322 | once an item raises, no later item is looked at |
| Ics.CollectRaises | calendar_OAuth_option.py:312-322 | the export raises exactly when some item it looks at raises |
| Ics.CollectSound | calendar_OAuth_option.py:312-322 | every kept event belongs to an item looked at, under its UID, and no UID is kept twice |
| Ics.CollectComplete | calendar_OAuth_option.py:312-322 | every item looked at with a non-empty event has its UID kept |
| Ics.DocumentFrame | calendar_OAuth_option.py:324-333 | the document opens with `BEGIN:VCALENDAR` and closes with `END:VCALENDAR` |
| Ics.CrlfJoin | calendar_OAuth_option.py:203-205 | specification function for `_crlf_join`; `Ics.CrlfJoinTerminates` states that every line ends with CRLF |
| Ics.Title | calendar_OAuth_option.py:216 | specification function: the stripped title, or `제목 없음` when it is empty |
| Ics.DeadlineLines | calendar_OAuth_option.py:250-282 | the schedule lines of a truthy deadline; `Ics.RangeDeadlineLastDay`, `Ics.DatetimeDeadlineOneHour`, `Ics.IsoDeadlineOneDay` and `Ics.DottedLinesRaise` state its branches |
| Ics.ScheduleLines | calendar_OAuth_option.py:250-283 | specification function for the schedule lines; `Ics.DeadlineSchedule` states that a truthy deadline alone decides them |
| Ics.Step | calendar_OAuth_option.py:312-322 | specification function for one pass of the export loop; `Ics.CollectRaisedSticks` states that a raise ends the loop |
| Ics.Collect | calendar_OAuth_option.py:312-322 | specification function for the export loop; `Ics.CollectRaises`, `Ics.CollectSound` and `Ics.CollectComplete` state its result |
| Ics.Document | calendar_OAuth_option.py:298-333 | specification function for `items_to_ics`; `Ics.ItemsToIcs` and `Ics.DocumentFrame` state its result |
| EventBody.DescriptionsCompared | calendar_OAuth_option.py:408-416 | the event description matches the iCalendar lines before escaping, except that a summary alone gets a leading newline |
| EventBody.DayWhensIso | calendar_OAuth_option.py:443-447 | an ISO date gives that day and the next, and raises only for 9999-12-31 |
| EventBody.TimedWhens | calendar_OAuth_option.py:433-439 | the start is the text as built; the end is one hour later; it raises exactly when the text does not parse or the hour overflows |
| EventBody.BuildEventBody | calendar_OAuth_option.py:387-478 | `None` exactly when neither the deadline nor the posting date gives a date; otherwise the identifier and the reminders, with `useDefault` false |
| EventBody.NullDeadlineNoDates | calendar_OAuth_option.py:422-440 | a deadline read as empty is neither a range nor a date and time |
| EventBody.NullDeadlineExporters | calendar_OAuth_option.py:443-453 | with such a deadline and a posting date, the body starts on the posting date while the iCalendar event has no schedule lines |
| EventBody.IsoDeadlineWhens | calendar_OAuth_option.py:422-447 | an ISO deadline takes the single-date branch |
| EventBody.IsoDeadlineBody | calendar_OAuth_option.py:422-447 | an ISO deadline runs from that day to the next, the same days as the iCalendar event |
| EventBody.IsoDeadlineSchedule | calendar_OAuth_option.py:422-453 | an ISO deadline's start and end are that day and the next |
| EventBody.DescriptionText | calendar_OAuth_option.py:408-416 | specification function for the event description; `EventBody.DescriptionsCompared` states its relation to the iCalendar one |
| EventBody.DayWhens | calendar_OAuth_option.py:443-447 | specification function for a single day; `EventBody.DayWhensIso` states its value on an ISO date |
| EventBody.DeadlineWhens | calendar_OAuth_option.py:422-447 | specification function for a truthy deadline's start and end; `EventBody.IsoDeadlineWhens` and `EventBody.NullDeadlineNoDates` state its branches |
| EventBody.ScheduleWhens | calendar_OAuth_option.py:422-453 | specification function for the start and end with the posting-date fallback; `EventBody.IsoDeadlineSchedule` and `EventBody.NullDeadlineExporters` state its values |
| GcalLink.RangeDates | calendar.py:186-194 | nothing exactly when no range is found; a range gives `start/end` and raises only `ValueError` |
| GcalLink.HourSlot | calendar.py:204-211 | a start and the hour after it, raising exactly in the last hour of 9999-12-31 |
| GcalLink.ClockDates | calendar.py:197-211 | nothing when no date and time is found; a value only when one is found, as `start/end` |
| GcalLink.DayDates | calendar.py:214-219 | a single date gives `start/end` |
| GcalLink.PostedSlot | calendar.py:222-228 | the posting date gives a `start/end` slot |
| GcalLink.FormatDates | calendar.py:174-230 | `None` only without a posting date, and always without a deadline and a posting date; otherwise two halves |
| GcalLink.ClockFrom | calendar.py:199-211 | once a date and time are found: two halves when it yields a value; without `:` in the time, nothing or the date's `ValueError` |
| GcalLink.ClockParses | calendar.py:202-204 | the `H:MM` text unpacks into an hour and a minute that form a valid date and time |
| GcalLink.ClockStart | calendar.py:202-204 | the start `datetime(y, m, d, hour, minute, 0)` is valid, on day `y-m-d`, at second 0 |
| GcalLink.ClockFromSlot | calendar.py:199-211 | step 2 gives the hour slot of the parsed start, or `ValueError` when the clock does not parse |
| GcalLink.ClockDecides | calendar.py:182-211 | with no range found, a date and time decides the `dates` value whenever step 2 yields a value or raises |
| GcalLink.RangeDeadlineDates | calendar.py:186-194 | a range with ISO ends gives `YYYYMMDD/YYYYMMDD`, the end being the last day itself, as the iCalendar `DTEND` |
| GcalLink.ClockDeadlineOneHour | calendar.py:197-211 | a date and `H:MM` time gives `YYYYMMDDTHHMMSS/YYYYMMDDTHHMMSS`, 3600 seconds apart; `ValueError` when the clock does not parse; a raise exactly in the last hour of 9999-12-31 |
| GcalLink.Unmarked | calendar.py:186-197 | text without the range or time marks skips both steps |
| GcalLink.IsoUnmarked | calendar.py:186-197 | an ISO date has neither mark |
| GcalLink.DayDatesIso | calendar.py:214-219 | an ISO date gives `YYYYMMDD/` followed by the next day |
| GcalLink.IsoDeadlineDates | calendar.py:182-219 | an ISO deadline gives the same days as the iCalendar event |
| GcalLink.PlainDeadlineDates | calendar.py:213-219 | a deadline without the marks is read as one day |
| GcalLink.PostedDates | calendar.py:221-228 | without a deadline, the posting date gives 09:00 to 10:00 that day |
| GcalLink.UndashedDay | calendar.py:216 | text without `-` makes the single-date step raise |
| GcalLink.DottedDeadlineDates | calendar.py:213-219 | a dotted deadline makes building the link raise `ValueError` |
| GcalLink.SafeSets | calendar.py:260-263 | neither safe set lets `&` or `=` through unescaped |
| GcalLink.LinkQueryPlain | calendar.py:265-272 | no key or value of the link's query holds `&` or `=` |
| GcalLink.LinkQueryStarts | calendar.py:265-272 | the query starts with `action=TEMPLATE` |
| GcalLink.LinkQueryDecodes | calendar.py:259-273 | the query reads back as the title, dates, details and time zone as UTF-8, with empty values left out |
| GcalLink.BuildGcalLink | calendar.py:232-274 | `""` exactly when there are no dates; otherwise the render URL starting with `action=TEMPLATE` |
| GcalLink.MentionsRange | calendar.py:186 | specification predicate for the range marks `~`, `∼`, `부터`, `까지`; `GcalLink.Unmarked` states when it is false |
| GcalLink.MentionsTime | calendar.py:197 | specification predicate for the time marks `:` and `시`; `GcalLink.Unmarked` states when it is false |
| GcalLink.Details | calendar.py:250-257 | specification function for the `details` text |
| GcalLink.LinkQuery | calendar.py:265-271 | specification function for the query pairs; `GcalLink.LinkQueryDecodes`, `GcalLink.LinkQueryPlain` and `GcalLink.LinkQueryStarts` state their properties |
| Percent.Utf8Char | calendar.py:263 | a character encodes as 1 to 4 bytes, one byte exactly for ASCII, and non-ASCII bytes otherwise (RFC 3629, section 3) |
| Percent.Utf8CharDecodes | calendar.py:263 | a character's UTF-8 bytes decode back to it |
| Percent.Utf8 | calendar.py:263 | the encoding is bytes, at least one per character |
| Percent.QuoteByte | calendar.py:263 | a quoted byte uses only unreserved characters, safe characters and `%` |
| Percent.QuoteBytes | calendar.py:263 | the same holds for a run of bytes, which is empty exactly when the input is |
| Percent.Quote | calendar.py:260-263 | `quote` maps empty text to empty text, and with these safe sets never writes `&` or `=` |
| Percent.UnquoteByte | calendar.py:263 | unquoting a quoted byte gives the byte back |
| Percent.UnquoteQuoteBytes | calendar.py:263 | unquoting quoted bytes gives the bytes back |
| Percent.UnquoteQuote | calendar.py:263 | unquoting quoted text gives its UTF-8 bytes (RFC 3986, section 2.1) |
| Text.SplitJoin | calendar.py:272 | splitting a join at a separator no part holds gives the parts back |
| Text.ParseInt | calendar_OAuth_option.py:278 | `int(s)` succeeds only on text with something besides whitespace; `Text.ParsePadNat` states that it reads back a padded number |
| Text.Strip | calendar_OAuth_option.py:36-38 | `strip()` is no longer than the text, is empty exactly when the text is blank, and neither starts nor ends with whitespace |
| Text.Split | calendar.py:272 | `split(sep)` gives at least one part, and no part holds the separator |
| Text.Join | calendar.py:272 | specification function for `sep.join(parts)`; `Text.SplitJoin` states that splitting inverts it |
| Text.PadNat | calendar_OAuth_option.py:279 | `f"{n:0{width}d}"` is digits worth `n`, at least `width` long, and exactly `width` long when `n` fits |
| Text.ZFill | calendar_OAuth_option.py:121-172 | `str.zfill(width)`: at least `width` long and unchanged when already that long; on digits it keeps the value |
| Text.Lower | calendar_OAuth_option.py:38 | `lower()` keeps the length and lowers each ASCII letter in place |
| Regex.MatchStart | calendar_OAuth_option.py:118-164 | specification function for `re.match`: a match at the start gives one group per capture; `Regex.NoMatchWithoutLit` and `Regex.NoMatchWhenShort` state when there is none |
| Regex.Search | calendar_OAuth_option.py:67-93 | specification function for `re.search`: the leftmost match gives one group per capture; `Regex.SearchAtStart` states that a match at the start is the one found, and `Regex.NoMatchWithoutLit` and `Regex.NoMatchWhenShort` state when there is none |
| Percent.FieldsPlain | calendar.py:272 | the fields hold no `&` and decode to the pairs with a value |
| Percent.QueryString | calendar.py:272 | specification function for `urlencode(params, quote_via=quote)`: `key=value` pairs joined by `&`; `Percent.QueryRoundTrip` and `Percent.QueryStartsWithFirst` state what it encodes |
| Percent.QueryRoundTrip | calendar.py:272 | a query string reads back as exactly the pairs with a non-empty value, in order |
| Percent.QueryStartsWithFirst | calendar.py:272 | a query whose first value is non-empty starts with that field |
| JsonSpan.SpanBounds | SummaryContent.py:89 | the span runs from the first `{` to the last `}`, and there is none exactly when no `}` follows a `{` |
| JsonSpan.Span | SummaryContent.py:89-94 | the span starts with `{` and ends with `}` |
| JsonSpan.SpanOfObject | SummaryContent.py:89-94 | an answer that is one brace-free object is its own span |
| JsonSpan.SpanIgnoresSurroundings | SummaryContent.py:89-94 | brace-free text around the object is dropped |
| JsonSpan.FromReply | SummaryContent.py:80-107 | it raises exactly when the model call fails; it returns the span when the span parses, and the failure message otherwise |
| SummaryContent.Summarize | SummaryContent.py:76-107 | without a model, the fixed message; it raises exactly when the model call fails; it returns the span when the span parses, and the failure message when there is no span or it does not parse |
| SummaryContent.FullText | SummaryContent.py:110-113 | the main text, followed by the heading and the OCR text unless the OCR text is blank |
| SummaryContent.RunSummarizerWithOcr | SummaryContent.py:108-116 | it summarises the main text, with the OCR text appended under its heading unless that is blank |
| Summary.InputContent | Summary.py:82 | the OCR text, a blank line, then the notice text |
| Summary.Summarize | Summary.py:77-110 | without a model, the fixed message; it raises exactly when the model call fails; it returns the span when it parses, and the failure message otherwise |
| Workflow.FullContent | Workflow.py:37-40 | the notice text, followed by the heading and the OCR text exactly when there is OCR text |
| Workflow.Checked | Workflow.py:73-95 | mail exactly with a summary; a retry exactly without one while fewer than three retries were made, each counted once; the count never passes three |
| Workflow.EmailStatus | Workflow.py:55-61 | the sender's answer with a summary, the failure text without one |
| Workflow.State.constructor | Workflow.py:11-24 | the input keys are set and every other key is unset |
| Workflow.State.RunOcr | Workflow.py:30-33 | the OCR tool's text for the image path is recorded, and nothing else changes |
| Workflow.State.PrepareContent | Workflow.py:35-41 | the full content is `FullContent`, and nothing else changes |
| Workflow.State.SummarizeAndValidate | Workflow.py:43-51 | the validated summary is recorded, and nothing else changes |
| Workflow.State.CheckSummaryQuality | Workflow.py:73-95 | the route and the new retry count are those of `Checked`, and nothing else changes |
| Workflow.State.SendEmailNode | Workflow.py:53-63 | the status is `EmailStatus`, and nothing else changes |
| Workflow.State.SummarizeLoop | Workflow.py:115-124 | with the router's count kept in the state, the summarise-and-check loop stops at the first good summary or after the first run plus three retries; every earlier run failed, and the retry count records the reruns |
| ImageNames.PathWithParams | src/developing/html_parse_img.py:102 | the path part holds no query or fragment |
| ImageNames.BaseName | src/developing/html_parse_img.py:102-103 | the last path segment holds no `/` and no `;params` |
| ImageNames.Extension | src/developing/html_parse_img.py:108-118 | the extension follows the content-type tests in order, `.jpg` by default |
| ImageNames.FallbackName | src/developing/html_parse_img.py:120 | `image_` followed by the position and an extension |
| ImageNames.FallbackNamesDiffer | src/developing/html_parse_img.py:120 | images at different positions get different fallback names |
| ImageNames.FileName | src/developing/html_parse_img.py:101-120 | the URL's last segment when it has a dot, otherwise the fallback |
| ImageNames.SuffixStart | src/developing/html_parse_img.py:125-126 | the suffix split lies within the name |
| ImageNames.StemSuffix | src/developing/html_parse_img.py:125-126 | the stem and the suffix rebuild the name, and the suffix is empty or a dot and non-dot characters |
| ImageNames.NumberedDiffer | src/developing/html_parse_img.py:129 | numbered variants differ from each other and from the name |
| ImageNames.FirstFree | src/developing/html_parse_img.py:128-130 | the first candidate path that does not exist; every earlier one exists |
| ImageNames.FreePath | src/developing/html_parse_img.py:122-130 | the name itself when free, otherwise the first free `stem_k.ext`: candidate `tries`, every earlier candidate being a file; the path does not exist yet |
| ImageNames.CandidatesDiffer | src/developing/html_parse_img.py:128-130 | the collision loop never tests a path twice |
| ImageNames.SaveDirectory.constructor | src/developing/html_parse_img.py:79-80 | the directory with the files it already holds |
| ImageNames.SaveDirectory.SaveImage | src/developing/html_parse_img.py:122-136 | the image is written under the first free candidate of its name, a path that did not exist, and the directory gains exactly that path |
| ImageNames.SaveDirectory.DownloadImages | src/developing/html_parse_img.py:95-147 | one outcome per position in the URL list, so a URL listed twice can be saved once and fail once; one new path per saved image, in URL order; the paths are pairwise different and exactly the files the directory gains; each is the first candidate of its image's name that was not yet a file, counting the paths saved before it |
| ImageNames.SavedStep | src/developing/html_parse_img.py:122-136 | saving an image under its first free candidate keeps both records of the loop |
| ImageNames.FirstFreeStep | src/developing/html_parse_img.py:122-136 | a path chosen as the first free candidate extends the record of first-free choices |
| ImageNames.StoredStep | src/developing/html_parse_img.py:133-136 | saving an image under a free path extends the record of saved paths |
| ImageNames.StoredSkip | src/developing/html_parse_img.py:139-144 | an image that fails leaves the record as it is |
| ImageNames.Stem | src/developing/html_parse_img.py:125 | specification function for `PurePath.stem`; `ImageNames.StemSuffix` states that stem and suffix rebuild the name |
| ImageNames.Suffix | src/developing/html_parse_img.py:126 | specification function for `PurePath.suffix`; `ImageNames.StemSuffix` states its shape |
| ImageNames.Numbered | src/developing/html_parse_img.py:129 | specification function for `stem_k.ext`; `ImageNames.NumberedDiffer` states that the variants differ |
| ImageNames.Candidate | src/developing/html_parse_img.py:122-130 | specification function for the path tested after `k` collisions; `ImageNames.CandidatesDiffer` states that no path is tested twice |
| ImageNames.Picked | src/developing/html_parse_img.py:122-130 | specification predicate: the path is candidate `t`, and every earlier candidate was already taken |
| ImageNames.FirstFreeEach | src/developing/html_parse_img.py:122-147 | specification predicate: every saved path is its name's first free candidate at the time it was chosen |

## Left out

- The HTTP requests, HTML parsing and per-site content extraction are left out; they are the `Scraper`, `Network` and cleaner parameters. So are link discovery (`_scrape_url`, except its cap of ten links), BeautifulSoup, the media-MBA attachment lookups and the body of `clean_html_content`.
- Thread pools are left out: the tasks run one after another. Any interleaving gives the same results here because each task's outcome is a function of its notice and attempt number.
- A crawl task that raises is left out. `crawl_all_content` drops the results of a fast task or a whole host group that raises (`main.py:102-103`). The model's fetch step cannot raise, because `fetch_content` catches every exception.
- Sleeping is left out. `Crawler.FetchWithRetry` reports the total pause as a number of milliseconds instead of sleeping.
- Crawler.RunCrawl: the JSON file write is left out. The method returns the list that would be written.
- Logging is left out, and so is the `Email` class of `main.py`, which refers to an undefined name.
- SHA-1 and base32 are not part of this model. The digest's base32 text comes from a function passed in.
- `datetime.now` and the system clock are left out. They are parameters: the `DTSTAMP` stamp, the current year for `M월 D일`, and today's date in KST.
- Time zones are left out: `tzid` is carried as text and KST offsets are not computed.
- `write_ics`, `_ensure_service`, `_find_existing_by_ext`, `upsert_to_gcal` and the OAuth token handling are left out. They are file and API I/O.
- `get_subscription_stats`, `get_email_stats` (its success rate is a float), `log_email_send` and `get_subscribers_email` are not part of this model.
- SQLite failures are left out, so the `except` paths that return `-1`, `[]` or `None` on a database error are not modelled. A NOT NULL violation in `save_program_to_db` is modelled.
- The language model, prompt formatting and `json.loads` are parameters (`llm`, `isJson`). `Parsers.parse_notice_output` is not part of this model: the workflow takes its result as given.
- `run_ocr_tool`, `send_email_tool` and `has_image` are undefined in `Workflow.py`, so they are parameters. `should_run_ocr` is left out because it only calls `has_image`.
- Workflow.State.CheckSummaryQuality: the router writes `retry_count` into the state it receives. A LangGraph conditional-edge function's writes are not merged back into the graph state, so in the running graph the count is not kept. The model keeps the update, as the code writes it.
- Workflow.State.SummarizeLoop: the bound of three retries holds only if the router's count is kept. In the running graph it is not, so a summary that keeps failing is re-run until LangGraph's recursion limit stops the graph. That limit and its error are not modelled.
- `extract_image_urls`, the image HTTP requests, `mkdir` and the file writes are left out. Each image's outcome (answered, content type, stored) is passed in.
- ImageNames.SaveDirectory.DownloadImages: `pathlib` normalisation of the joined path is not modelled (the path is `dir + "/" + name`). Neither is a failed write that still leaves a file behind.
- ImageNames.BaseName: the `urlparse` rule that splits `;params` only off the last segment is modelled. The `ValueError` for malformed IPv6 hosts is not.
- ImageNames.FirstFree requires its candidate paths to be pairwise different. This is proved for the collision loop's candidates (`ImageNames.CandidatesDiffer`).
- Crawler.Netloc: the netloc follows `urlsplit`. It strips leading C0 controls and spaces, deletes tab, CR and LF, and checks the scheme. The IPv6 bracket checks are not modelled.
- Regex: only the patterns the date code uses are modelled. This covers `re.search` and `re.match`, not general regular expressions. The digit token matches ASCII `0`-`9` only, where Python's `\d` matches every Unicode decimal digit.
- DateText.YmdInts: `int()` is modelled on ASCII digits with an optional sign and surrounding whitespace. Python also accepts underscores between digits (`int("1_2") == 12`) and non-ASCII decimal digits. The model raises `ValueError` on those, so a deadline such as `2024-1_2-01` raises here where Python reads 2024-12-01.
- Text.ParseInt: the same two gaps as `DateText.YmdInts` (no underscores, ASCII digits only).
- NoticeStore.NoticeDB: commit and rollback are not modelled. `website/dbWeb.py` connects in `sqlite3`'s default mode and commits only in `__exit__`. `website/app.py` builds `DB(path=DB_PATH)` without `with`, so the connection is closed by `__del__` without a commit. The writes of `subscribe_user`, `unsubscribe_user`, `update_user_subscriptions`, `register_user` and `delete_user` made through the website are therefore rolled back, and a later request does not see them. The model states each write's effect inside its own connection only.
- NoticeStore.NoticeDB.SubscribeUser: states the row inside the connection. Through the website it is not committed.
- NoticeStore.NoticeDB.UnsubscribeUser: states the row inside the connection. Through the website it is not committed.
- NoticeStore.NoticeDB.UpdateUserSubscriptions: states the rows inside the connection. Through the website they are not committed.
- NoticeStore.StampColumn: this is the corrected stamp rule, not the code as written. The code binds a `None` stamp as an explicit NULL (`NoticeStore.StampAsWritten`), and `save_new_notification` always passes `None`. The store class uses the corrected rule; the as-written behaviour is stated beside it (see "## Findings").
- NoticeStore.RowOf: builds the row with the corrected stamp of `NoticeStore.StampColumn`, not the NULL stamp the code writes.
- NoticeStore.NoticeDB.Valid: requires every ledger row to carry a stamp. This holds for the corrected store, not for ledgers filled by the code as written.
- NoticeStore.NoticeDB.SaveProgramToDb: stores the corrected stamp rather than the NULL the code writes for a `None` stamp.
- NoticeStore.NoticeDB.GetUserNotifications: serves the feed of the corrected store. On NULL-stamped rows the code returns `[]` whenever two or more entries are pooled. That case is stated by `NoticeStore.PageAsWritten` and `NoticeStore.NullStampsHideFeed`, not by this method.
- Text is left as Unicode code points: there is no normalisation. `lower()` folds ASCII letters only, which is enough to recognise `null`, `none` and `nan`.
- `%Y` in `strftime` is modelled as the year without padding, as glibc writes it. Years below 1000 therefore differ from `{y:04d}`.

## Findings

| source | as written | input that shows it | evidently intended | confidence | as-written member | corrected member |
|---|---|---|---|---|---|---|
| tools/fetch.py:372 with db/db.py:127 and db/db.py:356 | `save_new_notification` passes `crawl_timestamp: None`. `save_program_to_db` inserts it as an explicit NULL, so the column's `DEFAULT CURRENT_TIMESTAMP` never applies. `get_user_notifications` then sorts `None` keys; the `TypeError` is caught and the feed comes back empty | two notices of a followed board saved through `save_new_notification`, then `get_user_notifications(user)` | the stamp is the insertion time (the comment "Auto generated by DB"), so the feed lists both notices newest first | not executed | NoticeStore.NullStampsHideFeed | NoticeStore.FeedShowsEverySavedRow |
