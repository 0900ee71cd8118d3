# AHPC website: CMS record mapper and locale helpers, in Dafny

This project models the only logic of the AHPC bilingual (Arabic/English)
website that is more than markup:

- **The Notion adapter** (`ahpc-website/src/lib/notion.ts`). `getActivities`
  and `getNews` query a Notion database and map each raw page to an
  `Activity`/`NewsItem` record. `getActivityById` and `getNewsById` retrieve
  one page and return its record or null. All four go through `safeFetch`,
  which turns a missing client or a thrown error into an empty list. The
  source writes the page-to-record mapping out four times. Here it is one
  function, `Notion.MapPage`, and one list fetch `Notion.FetchList` serves
  both collections. The lemmas show that all four entry points emit that same
  mapping.
- **The locale helpers** (`ahpc-website/src/lib/i18n.ts`): the two locales
  and the default, the text direction, and `getTranslations` with its single
  fallback to the default locale. Two one-line helpers from the pages are
  included too: the route check `locales.includes(locale)` of the locale
layout (`ahpc-website/src/app/[locale]/layout.tsx`, line 21) and the header's
  language toggle.

Modules: `Wrappers` (Option), `Content` (the record and locale shapes of
`types/content.ts`), `I18n`, `Notion`. Everything is pure: the source has
no loops and no mutable state, so the model is functions and lemmas.

Parameters stand in for everything outside the code:
- `store: Store` is the Notion client. Its two functions give what a
  database query (by database id and locale) or a page retrieval (by id)
  returns, or `Threw`.
- `env: Env` holds the three environment variables. A variable counts as set
  when it is present and non-empty, which is JavaScript truthiness.
- `clock: nat -> string` stands for `new Date().toISOString()` in a list
  fetch. The source reads the clock once per mapped page, so page `i` of a
  list gets its own reading `clock(i)`. A by-id fetch maps one page and takes
  one reading, `now: string`.
- `load: Locale -> Option<D>` is the dynamic import of a locale's message
  file. `None` means the import rejects.

Behaviour worth knowing, as the code has it:
- A page without properties makes the whole list fetch throw. Notion can
  return such partial pages, and `page.properties.cover_image` then raises a
  TypeError. `safeFetch` catches it, so the list is empty and a by-id fetch
  gives null.
- An empty string counts as missing, not only an absent value. This holds for
  the title, the date and each image URL.
- The title is the first title fragment only. The description joins all its
  fragments.
- The by-id fetches never look at the page's `published` or `locale`
  properties. They mark every record published and tag it with the caller's
  locale.

## Model

| member | source | states |
|---|---|---|
| `Content.Code` | ahpc-website/src/types/content.ts:1 | The locale codes are exactly `"ar"` and `"en"`, one per locale. |
| `I18n.LocalesAreArAndEn` | ahpc-website/src/lib/i18n.ts:3-4 | `locales` is `['ar','en']` with no repeat, it holds every locale, and the default `ar` is a member. |
| `I18n.DirectionOf` | ahpc-website/src/lib/i18n.ts:6-8 | The direction is right-to-left exactly for Arabic and left-to-right exactly for English. |
| `I18n.FindLocale` | ahpc-website/src/lib/i18n.ts:3 | The search behind `locales.includes(locale)` in app/[locale]/layout.tsx, line 21. A code found in a list names a member with that code; if none is found, no member has that code. |
| `I18n.ParseLocale` | ahpc-website/src/lib/i18n.ts:3 | The route check `locales.includes(locale)` of app/[locale]/layout.tsx, line 21. A route segment is accepted exactly when it is `"ar"` or `"en"`, and it names the locale with that code. Any other segment gives not-found. |
| `I18n.ParseLocaleOfCode` | ahpc-website/src/lib/i18n.ts:3 | Every locale's own code passes the route check of app/[locale]/layout.tsx, line 21, and gives that locale back (round trip). |
| `I18n.OtherLocale` | ahpc-website/src/components/Header.tsx:15 | The toggle always picks the other locale, and that locale has the other text direction. |
| `I18n.OtherLocaleInvolution` | ahpc-website/src/components/Header.tsx:15 | Toggling twice returns the starting locale. |
| `I18n.Import` | ahpc-website/src/lib/i18n.ts:12-13 | One import resolves exactly when the loader has that locale's dictionary, and gives that dictionary. Otherwise it rejects, naming that locale. |
| `I18n.GetTranslations` | ahpc-website/src/lib/i18n.ts:10-19 | A successful first import returns its dictionary after one attempt. A failed one returns the default locale's import, and the attempts are requested then default. |
| `I18n.GetTranslationsResolvesIff` | ahpc-website/src/lib/i18n.ts:10-19 | The result resolves iff the requested or the default dictionary loads. There are at most two attempts, the requested one first. A resolved dictionary is the one of the last locale tried. |
| `I18n.FallbackFailurePropagates` | ahpc-website/src/lib/i18n.ts:14-17 | If both imports fail, the default locale's rejection is the outcome: there is no second fallback. |
| `I18n.DefaultLocaleRetriedOnce` | ahpc-website/src/lib/i18n.ts:12-16 | When `ar` is requested and fails, `ar` is imported exactly once more, and the outcome is the rejection. |
| `Notion.HasClient` | ahpc-website/src/lib/notion.ts:4-6 | The module-level client exists exactly when `NOTION_TOKEN` is present and non-empty. |
| `Notion.SafeFetch` | ahpc-website/src/lib/notion.ts:9-22 | No client gives the fallback. A thrown error gives the fallback. Otherwise the result is `fetchFn`'s value, unchanged. |
| `Notion.SafeFetchWithoutClientIgnoresFetch` | ahpc-website/src/lib/notion.ts:13 | Without a client, any two fetch functions give the same result, the fallback, so `fetchFn` is never invoked. |
| `Notion.FirstOrNull` | ahpc-website/src/lib/notion.ts:164 | The result is null exactly for an empty list, and otherwise the first element. The cover image (`allImages[0]`, line 70) is this same choice. |
| `Notion.AttachmentUrl` | ahpc-website/src/lib/notion.ts:57 | An attachment's URL is its uploaded file's URL when that is non-empty, else its external URL as it is. |
| `Notion.Urls` | ahpc-website/src/lib/notion.ts:56-57 | `files.map(...)` gives one URL per attachment, in order: entry `i` is the URL of attachment `i`. |
| `Notion.Compact` | ahpc-website/src/lib/notion.ts:58 | `filter(Boolean)` keeps only non-empty URLs and is no longer than its input. A string is kept iff it is non-empty and was present. |
| `Notion.CompactAppend` | ahpc-website/src/lib/notion.ts:58 | Filtering a concatenation is concatenating the filtered parts, so relative order is preserved. |
| `Notion.ImageUrls` | ahpc-website/src/lib/notion.ts:56-58 | A missing field gives `[]`. Every image is a non-empty string, and there are at most as many images as attachments. |
| `Notion.ImageUrlsAppend` | ahpc-website/src/lib/notion.ts:56-58 | The images of a list of attachments are the images of its parts, in the same order. |
| `Notion.ImageUrlsOfOne` | ahpc-website/src/lib/notion.ts:56-58 | One attachment gives its file URL if non-empty, else its external URL if non-empty, else nothing. |
| `Notion.Concat` | ahpc-website/src/lib/notion.ts:61-63 | The join starts with the first fragment's text. It is empty exactly when every fragment is empty. |
| `Notion.ConcatAppend` | ahpc-website/src/lib/notion.ts:61-63 | Joining a concatenation of fragments concatenates their joins: fragments appear in order. |
| `Notion.ConcatLength` | ahpc-website/src/lib/notion.ts:63 | The join's length is the sum of the fragments' lengths, so no separator is inserted. |
| `Notion.DescriptionText` | ahpc-website/src/lib/notion.ts:61-63 | A missing field gives `""`. The description is empty exactly when the field is missing or every fragment is empty, and it starts with the first fragment. |
| `Notion.TitleText` | ahpc-website/src/lib/notion.ts:67 | The title is never empty. It is the first fragment's text when that is non-empty. Any title other than `'Untitled'` is that first fragment's text. |
| `Notion.DateText` | ahpc-website/src/lib/notion.ts:69 | The date is `date.start` when present and non-empty, otherwise `now`. It is non-empty whenever `now` is. |
| `Notion.MapPage` | ahpc-website/src/lib/notion.ts:54-75 | Mapping throws exactly on a page without properties. Otherwise the record is well formed, with `id = page.id` and the caller's locale. Well formed means: non-empty title, `published`, non-empty images, and cover = first image or absent. |
| `Notion.MapPageFieldDefaults` | ahpc-website/src/lib/notion.ts:56-71 | Each field of a mapped record follows its own default policy: images, cover, title, description and date. |
| `Notion.MapPageIgnoresFilterColumns` | ahpc-website/src/lib/notion.ts:65-74 | A page's own `published` and `locale` properties do not affect its record. |
| `Notion.MapPages` | ahpc-website/src/lib/notion.ts:54-75 | Mapping a result list succeeds iff every page has properties. It then keeps the number and order of pages. Element `i` is the mapping of page `i` with its own clock reading `clock(i)`. |
| `Notion.ListFetch` | ahpc-website/src/lib/notion.ts:25-76 | The list body: no collection id gives `[]`. It throws exactly when the query throws or one of its pages has no properties. Otherwise there is one record per page, in order, each the mapping of its page. |
| `Notion.FetchList` | ahpc-website/src/lib/notion.ts:24-77 | No client or no collection id gives `[]`. Every returned record is well formed and has the requested locale. |
| `Notion.FetchListCases` | ahpc-website/src/lib/notion.ts:24-77 | A thrown query gives `[]`, and so does any partial page. Otherwise there is one record per result, in order, each the mapping of its page with that page's own clock reading. |
| `Notion.ListDatesReadClockPerPage` | ahpc-website/src/lib/notion.ts:69 | In a list, record `i` has page `i`'s `date.start` when non-empty, else the reading `clock(i)` taken while mapping that page. Two dateless pages need not share a timestamp. |
| `Notion.FetchListWithoutClient` | ahpc-website/src/lib/notion.ts:13 | Without a client the list is `[]`, whatever the store would answer. |
| `Notion.GetActivities` | ahpc-website/src/lib/notion.ts:24-77 | An unset token or an unset `NOTION_ACTIVITIES_DB_ID` gives `[]`. Every activity is well formed and has the requested locale. |
| `Notion.GetNews` | ahpc-website/src/lib/notion.ts:79-132 | An unset token or an unset `NOTION_NEWS_DB_ID` gives `[]`. Every news item is well formed and has the requested locale. |
| `Notion.ActivitiesAndNewsShareOneMapping` | ahpc-website/src/lib/notion.ts:79-132 | Given the same collection id, the news fetch returns exactly what the activities fetch does. |
| `Notion.ByIdFetch` | ahpc-website/src/lib/notion.ts:139-163 | The by-id body: no client gives `[]`, a branch `safeFetch` never reaches. It throws exactly when the retrieval throws or the page has no properties. Otherwise it returns the one mapped record. |
| `Notion.FetchById` | ahpc-website/src/lib/notion.ts:138-165 | There is a record iff a client exists, the retrieval returns, and the page has properties. The record is then the mapping of the retrieved page. |
| `Notion.FetchByIdSkipsPublishCheck` | ahpc-website/src/lib/notion.ts:142-163 | A retrieved page marked unpublished still gives a record, marked published and tagged with the caller's locale. |
| `Notion.GetActivityById` | ahpc-website/src/lib/notion.ts:138-165 | No client or a thrown retrieval gives null. A returned activity is well formed and has the caller's locale. |
| `Notion.GetNewsById` | ahpc-website/src/lib/notion.ts:168-195 | No client or a thrown retrieval gives null. A returned news item is well formed and has the caller's locale. |
| `Notion.ByIdAgreesWithList` | ahpc-website/src/lib/notion.ts:145-163 | Both by-id fetches give the same result. That result equals the first of a list fetch whose query returns the same page, given the same clock reading. So all four call sites share one mapping. |

## Left out

- Notion SDK calls (`databases.query`, `pages.retrieve`): a network client, modelled only by what they return or that they throw.
- FetchList: does not state that returned records are published and of the requested locale in the store, nor that they are sorted by date descending. The query's filter and sort run inside the store, not in this code.
- The clock (`new Date().toISOString()`): a list fetch takes `clock: nat -> string`, with page `i` mapped using `clock(i)`; a by-id fetch takes one reading, `now`.
- Dynamic `import()` of the message files: an abstract, deterministic loader. Whether an import that failed once could succeed on retry is not modelled.
- `console.error` logging: a side effect with no bearing on results.
- async/Promise plumbing: every call is treated as settling to a value or a throw.
- The `revalidate` constant: a hosting setting.
- Env: `NOTION_TOKEN` is read once at module load, while the two collection ids are read on every call. The model takes one `Env` per call, so a token changed after load is not captured.
- Runtime shape errors other than a page without properties are not modelled. Examples: a null attachment entry, or a non-string `plain_text`.
- `Activity.images`: optional in the type, but the mapper always fills it, so it is a plain sequence.
- `getDirection`'s `'rtl' | 'ltr'`: a two-valued datatype.
- All React components, page layouts and date formatting (`toLocaleDateString`): markup and the browser's locale library.
- The `NotionPage` and `Translation` interfaces: nothing in the core uses them.
