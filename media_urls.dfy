/**
 * Resolving a post's media reference to the URL the page puts in an `<img>`:
 * the API origin followed directly by the reference's `url`, or a fixed
 * placeholder when the reference or its `url` is missing or empty. The origin
 * (`Api_url`) is configuration and is taken as a parameter.
 */
module MediaUrls {
  import opened Wrappers
  import opened Posts

  // The two placeholders differ, so a missing cover and a missing avatar
  // render different images.
  const FALLBACK_IMAGE: string := "https://via.placeholder.com/400x300?text=No+Image"
  const FALLBACK_AVATAR: string := "https://via.placeholder.com/100x100?text=User"

  /**
   * The reference is present and its `url` is truthy. `url` is a string when
   * present, and the only falsy string is the empty one.
   */
  predicate HasUsableUrl(ref: Option<Media>)
  {
    ref.Some? && ref.value.url.Some? && ref.value.url.value != ""
  }

  /** The shared shape of both helpers: the guard, then the concatenation. */
  function ResolveMedia(ref: Option<Media>, apiUrl: string, fallback: string): (r: string)
    ensures !HasUsableUrl(ref) ==> r == fallback
    ensures HasUsableUrl(ref) ==>
      |r| > |apiUrl| && r[..|apiUrl|] == apiUrl && r[|apiUrl|..] == ref.value.url.value
  {
    if !HasUsableUrl(ref) then fallback else apiUrl + ref.value.url.value
  }

  /** `getImageUrl`: a post's cover image. */
  function GetImageUrl(image: Option<Media>, apiUrl: string): (r: string)
    ensures !HasUsableUrl(image) ==> r == FALLBACK_IMAGE
    ensures HasUsableUrl(image) ==> r == apiUrl + image.value.url.value
  {
    ResolveMedia(image, apiUrl, FALLBACK_IMAGE)
  }

  /** `getAuthorImageUrl`: a post's author avatar. */
  function GetAuthorImageUrl(authorImage: Option<Media>, apiUrl: string): (r: string)
    ensures !HasUsableUrl(authorImage) ==> r == FALLBACK_AVATAR
    ensures HasUsableUrl(authorImage) ==> r == apiUrl + authorImage.value.url.value
  {
    ResolveMedia(authorImage, apiUrl, FALLBACK_AVATAR)
  }

  /**
   * No separator is inserted, so the `url` can be read back from the resolved
   * URL: two usable references resolve alike exactly when their `url`s agree.
   */
  lemma ResolvedUrlDeterminesReference(a: Option<Media>, b: Option<Media>, apiUrl: string)
    requires HasUsableUrl(a) && HasUsableUrl(b)
    ensures GetImageUrl(a, apiUrl) == GetImageUrl(b, apiUrl) <==> a.value.url == b.value.url
    ensures GetAuthorImageUrl(a, apiUrl) == GetAuthorImageUrl(b, apiUrl) <==> a.value.url == b.value.url
  {
  }
}
