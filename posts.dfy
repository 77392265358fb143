/**
 * The records the blog page works on: a post as fetched from the content API,
 * its optional media references, and the fixed list of category buttons.
 */
module Posts {
  import opened Wrappers

  /** A media reference (`image`, `authorImage`); its `url` may be missing. */
  datatype Media = Media(url: Option<string>)

  /**
   * One fetched post. `posted_on` is the post's date as a timestamp: the page
   * only ever compares two of them by subtracting their `Date` values.
   */
  datatype Post = Post(
    id: int,
    title: string,
    category: string,
    posted_on: int,
    image: Option<Media>,
    authorImage: Option<Media>)

  /** One category button: its name and the emoji shown beside it. */
  datatype Category = Category(name: string, icon: string)

  /** The sentinel category that selects every post. */
  const ALL: string := "All"

  /** The category buttons, in the order the page shows them. */
  const CATEGORIES: seq<Category> := [
    Category(ALL, "\U{1F31F}"),
    Category("Technology", "\U{1F4BB}"),
    Category("React", "\U{269B}\U{FE0F}"),
    Category("AI", "\U{1F916}"),
    Category("Web3", "\U{1F310}"),
    Category("Design", "\U{1F3A8}"),
    Category("Development", "\U{26A1}"),
    Category("Programming", "\U{1F5A5}\U{FE0F}")
  ]
}
