/**
 * The shapes of ahpc-website/src/types/content.ts that the CMS adapter and the
 * locale helpers work with: the locale, and the record that `Activity` and
 * `NewsItem` both declare field for field.
 */
module Content {

  import opened Wrappers

  /** The two locales of the site (`'ar' | 'en'`). */
  datatype Locale = Ar | En

  /** The locale's code, as it appears in route prefixes and in the store's locale select. */
  function Code(l: Locale): (c: string)
    ensures |c| == 2
    ensures l == Ar <==> c == "ar"
    ensures l == En <==> c == "en"
  {
    match l
    case Ar => "ar"
    case En => "en"
  }

  /**
   * One content item. `Activity` and `NewsItem` have the same fields; the
   * optional `images` field is always filled by the adapter, so it is a plain
   * sequence here, and the optional `coverImage` is an `Option`.
   */
  datatype ContentRecord = ContentRecord(
    id: string,
    title: string,
    description: string,
    date: string,
    coverImage: Option<string>,
    images: seq<string>,
    locale: Locale,
    published: bool)

  type Activity = ContentRecord
  type NewsItem = ContentRecord

  /** The cover image is the first gallery image, and absent when there is none. */
  predicate CoverIsFirstImage(r: ContentRecord)
  {
    if |r.images| > 0 then r.coverImage == Some(r.images[0]) else r.coverImage.None?
  }

  /** What every record the adapter emits satisfies, whatever the store sent. */
  predicate WellFormed(r: ContentRecord)
  {
    && r.title != ""
    && r.published
    && (forall i | 0 <= i < |r.images| :: r.images[i] != "")
    && CoverIsFirstImage(r)
  }
}
