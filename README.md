# Blog page content pipeline, in Dafny

This project models the content logic of the `Blog` page component
(`src/Pages/Blog.jsx`) of a React marketing site, and proves what that page
relies on:

- **Load.** On mount the page fetches the posts. It sorts the fetched array in
  place, newest first by `posted_on`, and stores it as `blogs`. The first
  post becomes the one-item `recentBlogs` list (the featured post). If the
  fetch throws, both stay empty and nothing is retried.
- **Category filter.** The grid shows every post when the selected category
  is `"All"`. Otherwise it shows the posts of that category, in their order
  in `blogs`.
- **Button counts.** Each category button shows how many posts it selects.
- **Media fallback.** `getImageUrl` and `getAuthorImageUrl` turn a possibly
  missing media reference into an image URL, falling back to a fixed
  placeholder.
- **Day suffix.** The cards print the day of the month with its English
  ordinal suffix.

Modules, one file each:

| module | file | what it holds |
|---|---|---|
| `Wrappers` | `wrappers.dfy` | `Option`, for fields a fetched record may lack |
| `Seqs` | `seqs.dfy` | `Filter` (the model of `Array.prototype.filter`), `IsSubsequence`, and their lemmas |
| `Posts` | `posts.dfy` | `Media`, `Post`, `Category`, the `"All"` sentinel and the eight category buttons |
| `DateSort` | `date_sort.dfy` | the stable newest-first sort: `SortByDate` is the specification and `SortInPlace` sorts an array in place |
| `CategoryView` | `category_view.dfy` | `filteredBlogs` and the button counts |
| `MediaUrls` | `media_urls.dfy` | `getImageUrl`, `getAuthorImageUrl` and their placeholders |
| `DayOrdinal` | `day_ordinal.dfy` | the ordinal suffix and the printed day |
| `BlogPage` | `blog_page.dfy` | the page state as a class: `blogs`, `recentBlogs`, `selectedCategory` |

The page sorts with `Array.prototype.sort` and the comparator
`new Date(b.posted_on) - new Date(a.posted_on)`. That sort is stable since
ECMAScript 2019, so posts with the same date keep their fetch order. The
engine's sort algorithm cannot be seen here. It is modelled as an in-place
insertion sort (`DateSort.SortInPlace`). `DateSort.SortedByDateUnique` proves
the choice of algorithm is immaterial: any result that is newest first and
keeps the fetch order within each date equals `SortByDate`.

## Model

| member | source | states |
|---|---|---|
| `DateSort.SortInPlace` | src/Pages/Blog.jsx:46-48 | sorting the fetched array in place leaves it equal to `SortByDate` of its old contents |
| `DateSort.SortByDateSortedPermutation` | src/Pages/Blog.jsx:46-48 | the sorted list is non-increasing by `posted_on` and is a permutation (same multiset) of the fetched posts |
| `DateSort.SortByDateStable` | src/Pages/Blog.jsx:46-48 | for every date, the posts with that date appear in the sorted list in their fetch order (a stable sort) |
| `DateSort.SortedByDateUnique` | src/Pages/Blog.jsx:46-48 | any newest-first list that keeps the fetch order within each date is exactly `SortByDate` of the fetched posts, so every stable sort under the comparator gives the same `blogs` |
| `BlogPage.Take` | src/Pages/Blog.jsx:51 | `slice(0, n)` has length `n`, or the length of `s` when `s` is shorter, and agrees with `s` at every index it keeps |
| `BlogPage.RecentIsNewest` | src/Pages/Blog.jsx:46-51 | `recentBlogs` has one post when the fetch returned any and none otherwise; when non-empty, its post was fetched, is at least as new as every fetched post, and is the first fetched post of its date |
| `BlogPage.Page.constructor` | src/Pages/Blog.jsx:23-25 | the page starts with empty `blogs` and `recentBlogs` and `"All"` selected, which satisfies the invariant (newest first, `recentBlogs` is the first post) |
| `BlogPage.Page.FetchBlogs` | src/Pages/Blog.jsx:40-56 | on success the fetched array itself is sorted, `blogs` is `SortByDate` of the fetched posts and `recentBlogs` is its first post; on failure `blogs` and `recentBlogs` are unchanged; the selection is never touched and the invariant is kept |
| `BlogPage.Page.SelectCategory` | src/Pages/Blog.jsx:347 | a button click selects its category and leaves `blogs` and `recentBlogs` as they were |
| `BlogPage.Page.FilteredView` | src/Pages/Blog.jsx:62-66 | the grid is newest first and a subsequence of `blogs`; it is `blogs` itself for `"All"`; otherwise it holds only posts of the selected category, and each such post as often as `blogs` does (none dropped) |
| `BlogPage.Page.ButtonCount` | src/Pages/Blog.jsx:359 | a button's count equals the size of the grid its category selects, and is the length of `blogs` for `"All"` |
| `CategoryView.FilteredBlogs` | src/Pages/Blog.jsx:62-66 | for `"All"` the view is `blogs` unchanged; for another category it is an order-preserving subsequence of `blogs`, every post in it has that category, and every post of that category occurs in it as often as in `blogs` (none dropped) |
| `CategoryView.FilteredBlogsSorted` | src/Pages/Blog.jsx:62-66 | filtering a newest-first `blogs` gives a newest-first view |
| `CategoryView.CategoryCount` | src/Pages/Blog.jsx:359 | the count's condition (the button is "All", or the post has the button's category) counts exactly the posts of the view for `name`, and all posts for `"All"` |
| `CategoryView.CategoryCounts` | src/Pages/Blog.jsx:344-359 | there is one count per button in button order; the first (`"All"`) is the length of `blogs` and each is the size of its button's view |
| `MediaUrls.ResolveMedia` | src/Pages/Blog.jsx:84-93 | without a usable `url` the result is the placeholder; with one, the result starts with `Api_url`, continues with the `url` and nothing else, and is longer than `Api_url` |
| `MediaUrls.GetImageUrl` | src/Pages/Blog.jsx:84-87 | a missing reference, a missing `url` or an empty `url` gives `FALLBACK_IMAGE`; otherwise the result is `Api_url` and `url` joined with no separator |
| `MediaUrls.GetAuthorImageUrl` | src/Pages/Blog.jsx:90-93 | the same with `FALLBACK_AVATAR` |
| `MediaUrls.ResolvedUrlDeterminesReference` | src/Pages/Blog.jsx:84-93 | for usable references, two resolved URLs are equal exactly when the `url`s are, for both helpers |
| `DayOrdinal.DaySuffix` | src/Pages/Blog.jsx:295 | for every day 1..31 the page's chain of conditions (the same at line 435) ("st" when `d % 10 == 1 && d != 11`, then "nd", "rd", else "th") gives the English ordinal suffix, where every teen takes "th" |
| `DayOrdinal.DayDigits` | src/Pages/Blog.jsx:435 | the printed day has one or two decimal digits, no leading zero, and reads back as the day |
| `DayOrdinal.FormatDay` | src/Pages/Blog.jsx:435 | the printed day is its digits followed by its English ordinal suffix (the same expression appears at line 295) |
| `DayOrdinal.FormatDayExamples` | src/Pages/Blog.jsx:295 | days 1, 2, 3, 4, 11, 12, 13, 21, 22, 23 and 31 print as 1st, 2nd, 3rd, 4th, 11th, 12th, 13th, 21st, 22nd, 23rd and 31st |

`BlogPage.LoadThenFilterExample` is a client of the class. Two posts are
fetched, one dated 2024-01-05 in "AI" and one dated 2024-03-01 in "Web3".
After the load, the featured list holds the newer post and the "AI" grid
holds the older one.

Filtering is never destructive. `FilteredBlogs`, `CategoryCount`,
`Page.FilteredView` and `Page.ButtonCount` are functions, so they cannot
change `blogs`.

## Left out

- The scroll tracking (`useScroll`, `useSpring`) and the `useTransform` parallax, scale, opacity and blur channels: they are calls into the `framer-motion` library, whose code is not part of this model, and they work in floating point.
- The `whileInView` reveal variants with `viewport: { once: true }`: this is library behaviour on top of browser intersection observation.
- The `Math.random` bubble configuration: random, floating point and decorative.
- The HTTP GET and the `console.error` logging: I/O. The fetch is a `FetchResponse` parameter, either the fetched array or a failure.
- `Api_url`: it is imported from `src/API`, which is not part of this model, so it is a parameter of the media helpers.
- Date handling: `posted_on` is an integer timestamp. Parsing it with `new Date`, the month name from `toLocaleString` and `getFullYear` depend on the host's locale and time zone. An invalid date would make the comparator return `NaN`, which is not modelled.
- DayOrdinal.DaySuffix: takes the day as an input in 1..31, the range of `getDate()` for a valid date. The `NaN` day of an invalid date, which the page would print as "NaNth", is not modelled.
- Post fields the logic never reads (excerpt, author, reading time) and the JSX, styling and React re-render plumbing: presentation only. The commented-out category section is not code.
- `Post.category`: modelled as a string. A post whose `category` is missing in the JSON matches no button except "All", the same as a string no button carries.
- BlogPage.Page.FetchBlogs: `blogs` holds a copy of the sorted array's contents. In the page it is the same array object, but nothing changes that array after the load, so the copy is never distinguishable.
- The `src/Pages/Industries.jsx` page: hard-coded content, markup and animation hooks, with no logic beyond `parseInt` on constant strings.
- The fetch is not cancelled if the page unmounts before it completes. The model has no unmounting.
