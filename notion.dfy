/**
 * The CMS adapter of ahpc-website/src/lib/notion.ts: the fail-soft wrapper
 * `safeFetch`, the page-to-record mapping (written out four times in the
 * source, once here), the two list fetches for activities and news, and the
 * two by-id fetches.
 *
 * The Notion client is a parameter `store` of two total functions: what a
 * collection query and a page retrieval return, or that they threw. The
 * publish and locale filter and the date ordering of a query run inside the
 * store and are not modelled. The clock readings are parameters: `clock(i)`
 * is the reading taken while mapping the `i`-th page of a list, `now` the one
 * taken for a page retrieved by id. The environment is the parameter `env`.
 */
module Notion {

  import opened Wrappers
  import opened Content

  // ---------------------------------------------------------------------------
  // The raw page as the store returns it
  // ---------------------------------------------------------------------------

  /** One entry of the `cover_image` files property: `file.file?.url` and `file.external?.url`. */
  datatype Attachment = Attachment(fileUrl: Option<string>, externalUrl: Option<string>)

  /** One rich-text fragment; only its `plain_text` is read. */
  datatype RichText = RichText(plainText: string)

  /**
   * The page properties the mapper reads. A property that is missing, or that
   * lacks the nested field the mapper reaches for with `?.`, is `None`.
   * `published` and `locale` are the store-side filter columns; the mapper
   * never reads them.
   */
  datatype Properties = Properties(
    title: Option<seq<RichText>>,
    description: Option<seq<RichText>>,
    dateStart: Option<string>,
    coverImage: Option<seq<Attachment>>,
    published: Option<bool>,
    locale: Option<string>)

  /**
   * A page. A partial page (the store may return one without properties) has
   * `properties == None`; reading `page.properties.cover_image` from it throws.
   */
  datatype RawPage = RawPage(id: string, properties: Option<Properties>)

  /** What a call that may throw gives back. */
  datatype Attempt<T> = Threw | Returned(value: T)

  /** The Notion client: a collection query by database id and locale, and a page retrieval by id. */
  datatype Store = Store(
    query: (string, Locale) -> Attempt<seq<RawPage>>,
    retrieve: string -> Attempt<RawPage>)

  /** `NOTION_TOKEN`, `NOTION_ACTIVITIES_DB_ID` and `NOTION_NEWS_DB_ID`. */
  datatype Env = Env(token: Option<string>, activitiesDbId: Option<string>, newsDbId: Option<string>)

  /** The two content collections. */
  datatype Kind = Activities | News

  /** JavaScript truthiness of an optional string: present and not empty. */
  predicate Truthy(v: Option<string>)
  {
    v.Some? && v.value != ""
  }

  /** The module-level client exists exactly when the token is set, that is, present and non-empty. */
  predicate HasClient(env: Env): (b: bool)
    ensures b <==> env.token.Some? && |env.token.value| > 0
  {
    Truthy(env.token)
  }

  /** The collection's database id: `NOTION_ACTIVITIES_DB_ID` or `NOTION_NEWS_DB_ID`, read on every list fetch. */
  function CollectionId(env: Env, kind: Kind): Option<string>
  {
    match kind
    case Activities => env.activitiesDbId
    case News => env.newsDbId
  }

  /** The title given to a page whose first title fragment is missing or empty. */
  const Placeholder: string := "Untitled"

  // ---------------------------------------------------------------------------
  // safeFetch
  // ---------------------------------------------------------------------------

  /**
   * `safeFetch`: without a client the fallback, without calling `fetchFn`;
   * with one, `fetchFn`'s result, or the fallback when it throws.
   */
  function SafeFetch<T>(hasClient: bool, fetchFn: () -> Attempt<seq<T>>, fallback: seq<T>): (r: seq<T>)
    ensures !hasClient ==> r == fallback
    ensures hasClient && fetchFn().Threw? ==> r == fallback
    ensures hasClient && fetchFn().Returned? ==> r == fetchFn().value
  {
    if !hasClient then fallback
    else match fetchFn()
      case Threw => fallback
      case Returned(v) => v
  }

  /** Without a client the result does not depend on `fetchFn` at all: it is never invoked. */
  lemma SafeFetchWithoutClientIgnoresFetch<T>(f: () -> Attempt<seq<T>>, g: () -> Attempt<seq<T>>, fallback: seq<T>)
    ensures SafeFetch(false, f, fallback) == SafeFetch(false, g, fallback) == fallback
  {
  }

  /**
   * The first element, or null for an empty list: `results[0] || null` of the
   * by-id fetches, and `allImages[0]` of the cover image.
   */
  function FirstOrNull<T>(s: seq<T>): (r: Option<T>)
    ensures r.Some? <==> |s| > 0
    ensures r.Some? ==> r.value == s[0]
  {
    if |s| > 0 then Some(s[0]) else None
  }

  // ---------------------------------------------------------------------------
  // Field mapping
  // ---------------------------------------------------------------------------

  /** `file.file?.url || file.external?.url`: the uploaded file's URL when it is non-empty, else the external URL as it is. */
  function AttachmentUrl(a: Attachment): (u: Option<string>)
    ensures Truthy(a.fileUrl) ==> u == a.fileUrl
    ensures !Truthy(a.fileUrl) ==> u == a.externalUrl
  {
    if Truthy(a.fileUrl) then a.fileUrl else a.externalUrl
  }

  /** `.filter(Boolean)` on the extracted URLs: drops the missing and the empty ones. */
  function Compact(us: seq<Option<string>>): (r: seq<string>)
    ensures |r| <= |us|
    ensures forall i | 0 <= i < |r| :: r[i] != ""
    ensures forall x :: x in r <==> x != "" && Some(x) in us
  {
    if us == [] then []
    else if Truthy(us[0]) then [us[0].value] + Compact(us[1..])
    else Compact(us[1..])
  }

  /** Dropping URLs commutes with concatenation: relative order is kept. */
  lemma {:induction false} CompactAppend(a: seq<Option<string>>, b: seq<Option<string>>)
    ensures Compact(a + b) == Compact(a) + Compact(b)
  {
    if a == [] {
      assert a + b == b;
    } else {
      assert (a + b)[0] == a[0];
      assert (a + b)[1..] == a[1..] + b;
      CompactAppend(a[1..], b);
    }
  }

  /** The URL each attachment yields, one per attachment, in order. */
  function Urls(files: seq<Attachment>): (us: seq<Option<string>>)
    ensures |us| == |files|
    ensures forall i | 0 <= i < |files| :: us[i] == AttachmentUrl(files[i])
  {
    seq(|files|, i requires 0 <= i < |files| => AttachmentUrl(files[i]))
  }

  /** `cover_image?.files?.map(...).filter(Boolean) || []`: the gallery images. */
  function ImageUrls(cover: Option<seq<Attachment>>): (r: seq<string>)
    ensures cover.None? ==> r == []
    ensures cover.Some? ==> |r| <= |cover.value|
    ensures forall i | 0 <= i < |r| :: r[i] != ""
  {
    match cover
    case None => []
    case Some(files) => Compact(Urls(files))
  }

  /** The images of two runs of attachments are the images of each run, in order. */
  lemma ImageUrlsAppend(a: seq<Attachment>, b: seq<Attachment>)
    ensures ImageUrls(Some(a + b)) == ImageUrls(Some(a)) + ImageUrls(Some(b))
  {
    assert Urls(a + b) == Urls(a) + Urls(b);
    CompactAppend(Urls(a), Urls(b));
  }

  /**
   * One attachment gives its file URL if non-empty, else its external URL if
   * non-empty, else nothing. With ImageUrlsAppend this fixes the images of
   * every attachment list.
   */
  lemma ImageUrlsOfOne(f: Attachment)
    ensures ImageUrls(Some([f])) ==
      if Truthy(f.fileUrl) then [f.fileUrl.value]
      else if Truthy(f.externalUrl) then [f.externalUrl.value]
      else []
  {
    assert Urls([f]) == [AttachmentUrl(f)];
    assert Compact(Urls([f])[1..]) == [];
  }

  /** `.map(text => text.plain_text).join('')`. */
  function Concat(frags: seq<RichText>): (r: string)
    ensures |frags| > 0 ==> frags[0].plainText <= r
    ensures r == "" <==> forall i | 0 <= i < |frags| :: frags[i].plainText == ""
  {
    if frags == [] then "" else frags[0].plainText + Concat(frags[1..])
  }

  /** Joining is in order and without separator: it commutes with concatenation. */
  lemma {:induction false} ConcatAppend(a: seq<RichText>, b: seq<RichText>)
    ensures Concat(a + b) == Concat(a) + Concat(b)
  {
    if a == [] {
      assert a + b == b;
    } else {
      assert (a + b)[0] == a[0];
      assert (a + b)[1..] == a[1..] + b;
      ConcatAppend(a[1..], b);
    }
  }

  /** The sum of the fragments' lengths. */
  function TextLength(frags: seq<RichText>): nat
  {
    if frags == [] then 0 else |frags[0].plainText| + TextLength(frags[1..])
  }

  /** No separator is inserted: the description is exactly as long as its fragments together. */
  lemma {:induction false} ConcatLength(frags: seq<RichText>)
    ensures |Concat(frags)| == TextLength(frags)
  {
    if frags != [] {
      ConcatLength(frags[1..]);
    }
  }

  /** `description?.rich_text?.map(...).join('') || ''`. */
  function DescriptionText(d: Option<seq<RichText>>): (r: string)
    ensures d.None? ==> r == ""
    ensures r == "" <==> d.None? || forall i | 0 <= i < |d.value| :: d.value[i].plainText == ""
    ensures d.Some? && |d.value| > 0 ==> d.value[0].plainText <= r
  {
    match d
    case None => ""
    case Some(frags) => Concat(frags)
  }

  /** `title?.title?.[0]?.plain_text || 'Untitled'`: only the first fragment counts. */
  function TitleText(t: Option<seq<RichText>>): (r: string)
    ensures r != ""
    ensures t.Some? && |t.value| > 0 && t.value[0].plainText != "" ==> r == t.value[0].plainText
    ensures r != Placeholder ==> t.Some? && |t.value| > 0 && r == t.value[0].plainText
  {
    if t.Some? && |t.value| > 0 && t.value[0].plainText != "" then t.value[0].plainText
    else Placeholder
  }

  /** `date?.date?.start || new Date().toISOString()`, with the clock reading passed in as `now`. */
  function DateText(start: Option<string>, now: string): (r: string)
    ensures Truthy(start) ==> r == start.value
    ensures !Truthy(start) ==> r == now
    ensures now != "" ==> r != ""
  {
    if Truthy(start) then start.value else now
  }

  /**
   * The mapping body shared by all four fetches. It throws (None) exactly on
   * a partial page; otherwise the record carries the page's id, the caller's
   * locale, `published = true`, and the per-field defaults above
   * (MapPageFieldDefaults).
   */
  function MapPage(page: RawPage, locale: Locale, now: string): (r: Option<ContentRecord>)
    ensures r.Some? <==> page.properties.Some?
    ensures r.Some? ==> WellFormed(r.value) && r.value.id == page.id && r.value.locale == locale
    ensures r.Some? && now != "" ==> r.value.date != ""
  {
    match page.properties
    case None => None
    case Some(p) =>
      var images := ImageUrls(p.coverImage);
      Some(ContentRecord(
        id := page.id,
        title := TitleText(p.title),
        description := DescriptionText(p.description),
        date := DateText(p.dateStart, now),
        coverImage := FirstOrNull(images),
        images := images,
        locale := locale,
        published := true))
  }

  /**
   * Each field of a mapped record follows its own default policy: the images
   * from the attachments, the cover from the images, the title, description
   * and date from their properties with their fallbacks.
   */
  lemma MapPageFieldDefaults(page: RawPage, locale: Locale, now: string)
    requires page.properties.Some?
    ensures var p := page.properties.value;
      var rec := MapPage(page, locale, now).value;
      && rec.images == ImageUrls(p.coverImage)
      && rec.coverImage == FirstOrNull(rec.images)
      && rec.title == TitleText(p.title)
      && rec.description == DescriptionText(p.description)
      && rec.date == DateText(p.dateStart, now)
  {
  }

  /**
   * The mapper never reads the page's own `published` and `locale`
   * properties: two pages that differ only there map to the same record.
   */
  lemma MapPageIgnoresFilterColumns(page: RawPage, published: Option<bool>, pageLocale: Option<string>, locale: Locale, now: string)
    requires page.properties.Some?
    ensures MapPage(page, locale, now) ==
      MapPage(page.(properties := Some(page.properties.value.(published := published, locale := pageLocale))), locale, now)
  {
  }

  /**
   * `response.results.map(...)`: every page mapped in order; one partial page
   * makes the whole mapping throw. The callback reads the clock anew for each
   * page, so page `i` is given its own reading `clock(i)`.
   */
  function MapPages(pages: seq<RawPage>, locale: Locale, clock: nat -> string): (r: Option<seq<ContentRecord>>)
    ensures r.Some? <==> forall i | 0 <= i < |pages| :: pages[i].properties.Some?
    ensures r.Some? ==> |r.value| == |pages|
    ensures r.Some? ==> forall i | 0 <= i < |pages| :: MapPage(pages[i], locale, clock(i)) == Some(r.value[i])
  {
    if pages == [] then Some([])
    else
      var later := (i: nat) => clock(i + 1);
      var first := MapPage(pages[0], locale, clock(0));
      var rest := MapPages(pages[1..], locale, later);
      if first.None? || rest.None? then None
      else
        assert forall i | 1 <= i < |pages| :: pages[i] == pages[1..][i - 1] && clock(i) == later(i - 1);
        Some([first.value] + rest.value)
  }

  // ---------------------------------------------------------------------------
  // The four fetches
  // ---------------------------------------------------------------------------

  /**
   * The async body that `getActivities` and `getNews` hand to `safeFetch`:
   * no collection id gives `[]`; it throws exactly when the query throws or
   * one of its pages is partial; otherwise one record per page, in order.
   */
  function ListFetch(kind: Kind, env: Env, store: Store, locale: Locale, clock: nat -> string): (r: Attempt<seq<ContentRecord>>)
    ensures !Truthy(CollectionId(env, kind)) ==> r == Returned([])
    ensures Truthy(CollectionId(env, kind)) ==> var q := store.query(CollectionId(env, kind).value, locale);
      (r.Threw? <==> q.Threw? || exists i | 0 <= i < |q.value| :: q.value[i].properties.None?)
    ensures Truthy(CollectionId(env, kind)) && r.Returned? ==> var pages := store.query(CollectionId(env, kind).value, locale).value;
      |r.value| == |pages| && forall i | 0 <= i < |pages| :: MapPage(pages[i], locale, clock(i)) == Some(r.value[i])
  {
    var dbId := CollectionId(env, kind);
    if !Truthy(dbId) then Returned([])
    else match store.query(dbId.value, locale)
      case Threw => Threw
      case Returned(pages) =>
        match MapPages(pages, locale, clock)
        case None => Threw
        case Some(records) => Returned(records)
  }

  /** `getActivities` and `getNews`, the one list fetch parameterised by the collection. */
  function FetchList(kind: Kind, env: Env, store: Store, locale: Locale, clock: nat -> string): (r: seq<ContentRecord>)
    ensures !HasClient(env) || !Truthy(CollectionId(env, kind)) ==> r == []
    ensures forall i | 0 <= i < |r| :: WellFormed(r[i]) && r[i].locale == locale
  {
    SafeFetch(HasClient(env), () => ListFetch(kind, env, store, locale, clock), [])
  }

  /**
   * The list fetch, case by case: a thrown query or a partial page gives the
   * empty list; otherwise one record per page, in the store's order, each
   * the mapping of its page with that page's own clock reading.
   */
  lemma FetchListCases(kind: Kind, env: Env, store: Store, locale: Locale, clock: nat -> string)
    requires HasClient(env) && Truthy(CollectionId(env, kind))
    ensures var r := FetchList(kind, env, store, locale, clock);
      match store.query(CollectionId(env, kind).value, locale)
      case Threw => r == []
      case Returned(pages) =>
        if forall i | 0 <= i < |pages| :: pages[i].properties.Some? then
          |r| == |pages| && forall i | 0 <= i < |pages| :: MapPage(pages[i], locale, clock(i)) == Some(r[i])
        else r == []
  {
  }

  /**
   * Dates in a list: each page's record has its own `date.start` when that is
   * non-empty, and otherwise the clock reading taken while mapping that page,
   * so two dateless pages need not share a timestamp.
   */
  lemma {:induction false} ListDatesReadClockPerPage(kind: Kind, env: Env, store: Store, locale: Locale, clock: nat -> string, i: nat)
    requires HasClient(env) && Truthy(CollectionId(env, kind))
    requires store.query(CollectionId(env, kind).value, locale).Returned?
    requires i < |FetchList(kind, env, store, locale, clock)|
    ensures var pages := store.query(CollectionId(env, kind).value, locale).value;
      i < |pages| && pages[i].properties.Some? &&
      FetchList(kind, env, store, locale, clock)[i].date == DateText(pages[i].properties.value.dateStart, clock(i))
  {
    FetchListCases(kind, env, store, locale, clock);
    MapPageFieldDefaults(store.query(CollectionId(env, kind).value, locale).value[i], locale, clock(i));
  }

  /** Without a client no query is made: the result is empty whatever the store would answer. */
  lemma FetchListWithoutClient(kind: Kind, env: Env, s1: Store, s2: Store, locale: Locale, clock: nat -> string)
    requires !HasClient(env)
    ensures FetchList(kind, env, s1, locale, clock) == FetchList(kind, env, s2, locale, clock) == []
  {
  }

  /** `getActivities`. */
  function GetActivities(env: Env, store: Store, locale: Locale, clock: nat -> string): (r: seq<Activity>)
    ensures !HasClient(env) || !Truthy(env.activitiesDbId) ==> r == []
    ensures forall i | 0 <= i < |r| :: WellFormed(r[i]) && r[i].locale == locale
  {
    FetchList(Activities, env, store, locale, clock)
  }

  /** `getNews`. */
  function GetNews(env: Env, store: Store, locale: Locale, clock: nat -> string): (r: seq<NewsItem>)
    ensures !HasClient(env) || !Truthy(env.newsDbId) ==> r == []
    ensures forall i | 0 <= i < |r| :: WellFormed(r[i]) && r[i].locale == locale
  {
    FetchList(News, env, store, locale, clock)
  }

  /** The two list fetches differ only in the collection they query. */
  lemma ActivitiesAndNewsShareOneMapping(env: Env, store: Store, locale: Locale, clock: nat -> string)
    requires env.activitiesDbId == env.newsDbId
    ensures GetActivities(env, store, locale, clock) == GetNews(env, store, locale, clock)
  {
  }

  /**
   * The async body that `getActivityById` and `getNewsById` hand to
   * `safeFetch`: it throws exactly when the retrieval throws or gives a
   * partial page, and otherwise returns the one mapped record.
   */
  function ByIdFetch(env: Env, store: Store, id: string, locale: Locale, now: string): (r: Attempt<seq<ContentRecord>>)
    ensures !HasClient(env) ==> r == Returned([])
    ensures HasClient(env) ==> (r.Threw? <==> store.retrieve(id).Threw? || store.retrieve(id).value.properties.None?)
    ensures HasClient(env) && r.Returned? ==> r.value == [MapPage(store.retrieve(id).value, locale, now).value]
  {
    // `if (!notion) return []`: unreachable, since safeFetch checks the client first.
    if !HasClient(env) then Returned([])
    else match store.retrieve(id)
      case Threw => Threw
      case Returned(page) =>
        match MapPage(page, locale, now)
        case None => Threw
        case Some(rec) => Returned([rec])
  }

  /** `getActivityById` and `getNewsById`: the one by-id fetch, unwrapped to first-or-null. */
  function FetchById(env: Env, store: Store, id: string, locale: Locale, now: string): (r: Option<ContentRecord>)
    ensures r.Some? <==> HasClient(env) && store.retrieve(id).Returned? && store.retrieve(id).value.properties.Some?
    ensures r.Some? ==> r == MapPage(store.retrieve(id).value, locale, now)
  {
    FirstOrNull(SafeFetch(HasClient(env), () => ByIdFetch(env, store, id, locale, now), []))
  }

  /**
   * The by-id path applies no publish check: a retrieved page whose own
   * `published` property is false, or whose `locale` is another locale's,
   * still yields a record marked published and tagged with the caller's locale.
   */
  lemma FetchByIdSkipsPublishCheck(env: Env, store: Store, id: string, locale: Locale, now: string, page: RawPage)
    requires HasClient(env) && store.retrieve(id) == Returned(page)
    requires page.properties.Some? && page.properties.value.published == Some(false)
    ensures var r := FetchById(env, store, id, locale, now);
      r.Some? && r.value.published && r.value.locale == locale && r.value.id == page.id
  {
  }

  /** `getActivityById`. */
  function GetActivityById(env: Env, store: Store, id: string, locale: Locale, now: string): (r: Option<Activity>)
    ensures !HasClient(env) || store.retrieve(id).Threw? ==> r.None?
    ensures r.Some? ==> WellFormed(r.value) && r.value.locale == locale
  {
    FetchById(env, store, id, locale, now)
  }

  /** `getNewsById`. */
  function GetNewsById(env: Env, store: Store, id: string, locale: Locale, now: string): (r: Option<NewsItem>)
    ensures !HasClient(env) || store.retrieve(id).Threw? ==> r.None?
    ensures r.Some? ==> WellFormed(r.value) && r.value.locale == locale
  {
    FetchById(env, store, id, locale, now)
  }

  /**
   * All four fetches emit the same mapping of a page: a record a by-id fetch
   * returns is exactly what a list fetch makes of the same page.
   */
  lemma ByIdAgreesWithList(env: Env, store: Store, id: string, kind: Kind, locale: Locale, clock: nat -> string, now: string)
    requires HasClient(env) && Truthy(CollectionId(env, kind)) && clock(0) == now
    requires store.retrieve(id).Returned? && store.query(CollectionId(env, kind).value, locale) == Returned([store.retrieve(id).value])
    ensures GetActivityById(env, store, id, locale, now) == GetNewsById(env, store, id, locale, now)
    ensures FirstOrNull(FetchList(kind, env, store, locale, clock)) == GetActivityById(env, store, id, locale, now)
  {
    FetchListCases(kind, env, store, locale, clock);
  }
}
