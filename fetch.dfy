/**
 * The crawler's view of one notice board: which scraped links are new, how a
 * notice's URL becomes a request, the record a fetch produces, and saving a
 * notice to the ledger. Scraping and page parsing are adapters passed in.
 */
module Fetch {
  import opened Wrappers
  import opened Text
  import opened NoticeStore

  /** A link found on a board page: its text and absolute URL. */
  datatype ScrapedLink = ScrapedLink(text: string, url: string)

  /** `_scrape_url(url, title, link_selector)`: HTTP and HTML parsing, outside this model. */
  type Scraper = (string, string, Option<string>) -> seq<ScrapedLink>

  /** A notice not yet in the ledger, as handed to the content fetcher. */
  datatype NewItem = NewItem(
    notificationId: int, categoryTitle: string, title: string, link: string, contentSelector: Option<string>)

  function ItemOf(id: int, info: NoticeInfo, l: ScrapedLink): NewItem {
    NewItem(id, info.title, l.text, l.url, info.contentSelector)
  }

  // ------------------------------------------------------------------ the diff

  /** The scraped links whose URL the ledger does not hold, in page order. */
  function Unseen(id: int, info: NoticeInfo, existing: set<string>, scraped: seq<ScrapedLink>): (r: seq<NewItem>)
    ensures |r| <= |scraped|
  {
    if scraped == [] then []
    else
      var init := scraped[..|scraped| - 1];
      var l := scraped[|scraped| - 1];
      if l.url in existing then Unseen(id, info, existing, init)
      else Unseen(id, info, existing, init) + [ItemOf(id, info, l)]
  }

  /** An item is in the diff exactly when it comes from a scraped link whose URL the ledger lacks. */
  lemma {:induction false} UnseenMembers(id: int, info: NoticeInfo, existing: set<string>, scraped: seq<ScrapedLink>)
    ensures forall it :: it in Unseen(id, info, existing, scraped) <==>
              exists l :: l in scraped && l.url !in existing && it == ItemOf(id, info, l)
  {
    if scraped != [] {
      var init := scraped[..|scraped| - 1];
      var l := scraped[|scraped| - 1];
      assert scraped == init + [l];
      UnseenMembers(id, info, existing, init);
    }
  }

  /** When the ledger holds every scraped URL the diff is empty. */
  lemma {:induction false} UnseenNone(id: int, info: NoticeInfo, existing: set<string>, scraped: seq<ScrapedLink>)
    requires forall l | l in scraped :: l.url in existing
    ensures Unseen(id, info, existing, scraped) == []
  {
    if scraped != [] {
      var init := scraped[..|scraped| - 1];
      assert scraped[|scraped| - 1] in scraped;
      UnseenNone(id, info, existing, init);
    }
  }

  function Reverse<T>(s: seq<T>): (r: seq<T>)
    ensures |r| == |s|
    ensures forall i :: 0 <= i < |s| ==> r[i] == s[|s| - 1 - i]
  {
    if s == [] then [] else Reverse(s[1..]) + [s[0]]
  }

  lemma ReverseMembers<T>(s: seq<T>)
    ensures forall x :: x in Reverse(s) <==> x in s
  {
    forall x ensures x in Reverse(s) <==> x in s {
      if x in s {
        var i :| 0 <= i < |s| && s[i] == x;
        assert Reverse(s)[|s| - 1 - i] == x;
      }
    }
  }

  /** What `get_new_notifications` returns, given the board's registry entry and ledger view. */
  function NewNotifications(id: int, info: Option<NoticeInfo>, existing: set<string>, scrape: Scraper): seq<NewItem> {
    match info
    case None => []
    case Some(i) => Reverse(Unseen(id, i, existing, Take10(scrape(i.url, i.title, i.linkSelector))))
  }

  /**
   * `get_new_notifications`: an unknown board yields nothing; otherwise the first ten
   * scraped links whose URL is not yet in the ledger, turned into items, last one first.
   */
  method GetNewNotifications(db: NoticeDB, id: int, scrape: Scraper) returns (items: seq<NewItem>)
    ensures items == NewNotifications(id, db.GetNotificationInfo(id), db.ExistingLinks(id), scrape)
  {
    var info := db.GetNotificationInfo(id);
    if info.None? {
      return [];
    }
    var existing := db.ExistingLinks(id);
    var scraped := Take10(scrape(info.value.url, info.value.title, info.value.linkSelector));
    var unseen := [];
    for i := 0 to |scraped|
      invariant unseen == Unseen(id, info.value, existing, scraped[..i])
    {
      assert scraped[..i + 1][..i] == scraped[..i];
      var l := scraped[i];
      if l.url !in existing {
        unseen := unseen + [NewItem(id, info.value.title, l.text, l.url, info.value.contentSelector)];
      }
    }
    assert scraped[..|scraped|] == scraped;
    items := Reverse(unseen);
  }

  /**
   * Saving every item the diff returned and running the diff again on the same page
   * finds nothing new.
   */
  lemma RerunFindsNothing(id: int, info: Option<NoticeInfo>, existing: set<string>, scrape: Scraper)
    ensures var saved := set it | it in NewNotifications(id, info, existing, scrape) :: it.link;
            NewNotifications(id, info, existing + saved, scrape) == []
  {
    if info.Some? {
      var i := info.value;
      var scraped := Take10(scrape(i.url, i.title, i.linkSelector));
      var unseen := Unseen(id, i, existing, scraped);
      ReverseMembers(unseen);
      UnseenMembers(id, i, existing, scraped);
      var saved := set it | it in NewNotifications(id, info, existing, scrape) :: it.link;
      forall l | l in scraped ensures l.url in existing + saved {
        if l.url !in existing {
          assert ItemOf(id, i, l) in unseen;
        }
      }
      UnseenNone(id, i, existing + saved, scraped);
    }
  }

  /**
   * An item is new exactly when it comes from one of the first ten scraped links
   * whose URL is not in the ledger, and it carries the board's title and selector.
   */
  lemma NewItemsAreUnseen(id: int, info: NoticeInfo, existing: set<string>, scrape: Scraper, it: NewItem)
    ensures it in NewNotifications(id, Some(info), existing, scrape) <==>
      exists l :: l in Take10(scrape(info.url, info.title, info.linkSelector)) && l.url !in existing
                  && it == NewItem(id, info.title, l.text, l.url, info.contentSelector)
  {
    var scraped := Take10(scrape(info.url, info.title, info.linkSelector));
    ReverseMembers(Unseen(id, info, existing, scraped));
    UnseenMembers(id, info, existing, scraped);
  }

  // ------------------------------------------------------------------ fetching content

  /** The request `fetch_content` sends for a notice URL. */
  datatype Request =
    | LawyerPost(baseUrl: string, postId: string)   // form POST with `pdsid`
    | SsfilmGet(url: string)                         // JSON API
    | MediambaGet(apiUrl: string)                    // JSON API with attachments
    | PageGet(url: string)                           // HTML page, content by selector

  const LawyerPrefix := "https://lawyer.ssu.ac.kr"
  const SsfilmPrefix := "http://ssfilm.ssu.ac.kr/notice/notice_view"
  const MediambaApiPrefix := "https://api.mediamba.ssu.ac.kr/v1/board"
  const MediambaPagePrefix := "https://mediamba.ssu.ac.kr/board/notice"

  /** URL rewriting: the lawyer board posts its id, the media-MBA page maps to its API. */
  function RequestFor(url: string): Request {
    if StartsWith(url, LawyerPrefix) then
      LawyerPost(BeforeFirst(url, "?post="), AfterLast(url, "?post="))
    else if StartsWith(url, SsfilmPrefix) then SsfilmGet(url)
    else if StartsWith(url, MediambaApiPrefix) then MediambaGet(url)
    else if StartsWith(url, MediambaPagePrefix) then
      MediambaGet("https://api.mediamba.ssu.ac.kr/v1/board/" + AfterLast(url, "/"))
    else PageGet(url)
  }

  /** A lawyer-board URL splits back into its base and post id. */
  lemma LawyerRequest(base: string, postId: string)
    requires StartsWith(base, LawyerPrefix)
    requires '?' !in base && '?' !in postId
    ensures RequestFor(base + "?post=" + postId) == LawyerPost(base, postId)
  {
    var url := base + "?post=" + postId;
    assert StartsWith(url, LawyerPrefix) by {
      assert url[..|LawyerPrefix|] == base[..|LawyerPrefix|];
    }
    SplitAround(base, "?post=", postId);
  }

  /** A media-MBA page URL becomes the API URL of its last path segment. */
  lemma MediambaRequest(path: string, boardId: string)
    requires '/' !in boardId
    ensures RequestFor(MediambaPagePrefix + path + "/" + boardId)
            == MediambaGet("https://api.mediamba.ssu.ac.kr/v1/board/" + boardId)
  {
    var url := MediambaPagePrefix + path + "/" + boardId;
    assert url[..|MediambaPagePrefix|] == MediambaPagePrefix;
    assert url[8] == 'm';
    assert !StartsWith(url, LawyerPrefix) && !StartsWith(url, SsfilmPrefix) && !StartsWith(url, MediambaApiPrefix) by {
      assert LawyerPrefix[8] == 'l' && MediambaApiPrefix[8] == 'a';
      assert SsfilmPrefix[4] == ':' && url[4] == 's';
    }
    AfterLastChar(MediambaPagePrefix + path, '/', boardId);
    assert url == (MediambaPagePrefix + path) + ['/'] + boardId;
  }

  /** What came back for a request: the extracted content, or the exception text. */
  datatype Outcome = Fetched(content: string) | Failed(error: string)

  /**
   * The network and the per-site content extraction, outside this model: the outcome
   * of sending a request with a content selector on a given attempt.
   */
  type Network = (Request, Option<string>, nat) -> Outcome

  /** The dictionary `fetch_content` returns; `error` is present only on failure. */
  datatype FetchRecord = FetchRecord(title: string, url: string, content: string, success: bool, error: Option<string>)

  /** `clean_html_content`: empty or whitespace-only input comes back unchanged; other input goes through `clean`. */
  function CleanHtmlContent(html: string, clean: string -> string): (r: string)
    ensures IsBlank(html) ==> r == html
    ensures !IsBlank(html) ==> r == clean(html)
  {
    if html == "" || Strip(html) == "" then html else clean(html)
  }

  /**
   * `fetch_content` on one attempt: a success echoes the title and link with the cleaned
   * content; a failure echoes them with empty content and the error text.
   */
  function FetchContent(item: NewItem, selector: Option<string>, net: Network, clean: string -> string, attempt: nat)
    : (r: FetchRecord)
    ensures r.title == item.title && r.url == item.link
    ensures r.success <==> net(RequestFor(item.link), selector, attempt).Fetched?
    ensures !r.success ==> r.content == "" && r.error == Some(net(RequestFor(item.link), selector, attempt).error)
    ensures r.success ==> (r.error.None?
              && r.content == CleanHtmlContent(net(RequestFor(item.link), selector, attempt).content, clean))
  {
    match net(RequestFor(item.link), selector, attempt)
    case Failed(e) => FetchRecord(item.title, item.link, "", false, Some(e))
    case Fetched(c) => FetchRecord(item.title, item.link, CleanHtmlContent(c, clean), true, None)
  }

  // ------------------------------------------------------------------ saving

  /** The program dictionary `save_new_notification` builds: the stamp is left to the database. */
  function ProgramOf(item: NewItem): (p: Program)
    ensures Insertable(p)
    ensures p.stamp.Null?
  {
    Program(Str(item.link), Null, Str(item.title), Null, Null)
  }

  /** `save_new_notification`: records the item's link in its board's ledger. */
  method SaveNewNotification(db: NoticeDB, item: NewItem, now: string) returns (code: int)
    requires db.Valid()
    modifies db
    ensures db.Valid()
    ensures code == 1
    ensures db.ExistingLinks(item.notificationId) == old(db.ExistingLinks(item.notificationId)) + {item.link}
    ensures forall j | j != item.notificationId :: db.ExistingLinks(j) == old(db.ExistingLinks(j))
    ensures db.sources == old(db.sources) && db.users == old(db.users) && db.subscriptions == old(db.subscriptions)
  {
    code := db.SaveProgramToDb(item.notificationId, ProgramOf(item), now);
  }
}
