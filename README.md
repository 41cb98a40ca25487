# Portfolio site core, modelled in Dafny

This project models the logic of a personal portfolio site and of its serverless
visitor counter:

- **The hash router.** The location fragment is parsed into a route, an optional blog
  post slug, and two independent `{type, value}` filters, one for the blog list and one
  for the projects list. The navigation actions write the fragment and the state
  together, and `renderContent` picks the page from the state.
- **The application shell's route.** This second, unsplit copy of the fragment decides
  which sidebar item is highlighted.
- **Content selection.** This covers the blog and project filters and their on-screen
  conditions, draft visibility and lookup by slug in the blog library, the module-path
  check before a post's markdown is loaded, and the grouping of certificates by
  category with their date and link labels.
- **The visitor-counter Lambda.** It detects bots, de-duplicates visits from one IP
  hash within 24 hours, updates the total and the visitor record, and builds the
  response.

`encodeURIComponent` and `decodeURIComponent` follow the Encode and Decode abstract
operations of ECMA-262, section 19.2.6 (URI handling functions). Escapes follow
section 2.1 of RFC 3986, with UTF-8 per RFC 3629. Decoding is partial. A bad `%`
escape, a truncated or over-long UTF-8 sequence, a surrogate code point, or a
continuation byte out of place all yield `None`, which stands for the `URIError`.

## Layout

| file | module | models |
|---|---|---|
| wrappers.dfy | `Wrappers` | `Option`, standing for JavaScript `null`/`undefined` and Python's missing keys |
| seqs.dfy | `Seqs` | `Array.prototype.filter` and `find`, order-preserving subsequences |
| jstext.dfy | `JsText` | `String.prototype.split`, which keeps empty segments; `startsWith`; Python slicing; truthiness of optional strings |
| uricoding.dfy | `UriCoding` | `encodeURIComponent` / `decodeURIComponent` |
| contentfilter.dfy | `ContentFilter` | the `{type, value}` filter and the keep rule shared by the blog and projects lists |
| hashrouter.dfy | `HashRouter` | `src/components/Router.jsx`, as the class `Router` |
| appshell.dfy | `AppShell` | `src/App.jsx` as the class `App`, and the sidebar's active test |
| blogdata.dfy | `BlogData` | `src/lib/blog.js` |
| blogpage.dfy | `BlogPage` | `src/components/Blog.jsx` |
| projectspage.dfy | `ProjectsPage` | `src/components/Projects.jsx` and its constant project list |
| certificationspage.dfy | `CertificationsPage` | `src/components/Certifications.jsx` and its constant lists |
| visitorcounter.dfy | `VisitorCounter` | `lambda/lambda-visitor-counter/index.py`, with the table as the class `VisitorTable` |

### How the code differs from a reading of its comments

Where the two differ, the model follows the code.

- **Decoding can throw.** `handleHashChange` calls `decodeURIComponent` before any
  setter, so a malformed value throws with the state as it was
  (`HashRouter.Router.HandleHashChange` returning `ok == false`). What follows depends
  on where the call was made. Inside a `hashchange` event only that one call is lost.
  At mount, the first call runs before `addEventListener`, so the `URIError` escapes
  the effect and the listener is never registered. No error boundary catches it, so
  React unmounts the whole tree: a page loaded on a malformed filter fragment is blank.
  `HashRouter.Router.Mount` models this only up to the unregistered listener.
- **The `blog/` prefix.** Any `blog/` fragment that does not have exactly three
  segments is read as a post. So `blog/` gives an empty slug and shows the list, and
  `blog/a/b/c` opens the post `a`.
- **The `projects/` prefix.** A `projects/` fragment with any other number of segments
  leaves all four state fields unchanged.
- **Unknown routes.** They are kept as the route and fall through to the hero in
  `renderContent`. Nothing resets them to `home`.
- **Opening a post.** `onPostClick` first sets the route to the raw string
  `blog/<slug>`, which renders the hero. Only the `hashchange` event that follows
  turns it into route `blog` with that slug (`HashRouter.OpenPostViews`).
- **Clearing a filter.** This writes the bare page name. When that fragment is read
  back, the else branch also clears the other page's filter and the slug
  (`HashRouter.ClearedFilterReparse`).
- **A missing total.** The counter's update expression `SET #count = #count + :inc`
  refers to the `count` attribute. DynamoDB rejects the update when that attribute is
  absent. So a counted visit to a table without a stored total answers 500 and writes
  nothing. The value 0 read at the start only reaches the caller when the visit does
  not count.

## Data

The fixed lists and values of the code are constants; the lemmas named here state their properties.

| constant | source | used by |
|---|---|---|
| `BlogData.ALL_POSTS` | src/lib/blog.js:5-51 | the five posts, all drafts; `SlugsDistinct`, `DraftsHidden`, `LookupFindsPost` |
| `ProjectsPage.PROJECTS` | src/components/Projects.jsx:5-72 | the project cards; `CategoriesSet` |
| `CertificationsPage.CATEGORIES` | src/components/Certifications.jsx:5-10 | the category blocks in display order; `CategoryIdsDistinct` |
| `CertificationsPage.CERTIFICATIONS` | src/components/Certifications.jsx:12-115 | the certificates; `CertCategoriesListed`, `EveryCertInOneGroup`, `EveryCardShowsDate`, `LabelMatchesDate` |
| `AppShell.SIDEBAR_ROUTES` | src/components/Layout.jsx:68-142 | the sidebar's routes in order; `AtMostOneActive`, `NoneActiveOnPaths` |
| `HashRouter.PAGES` | src/components/Router.jsx:105-121 | the pages `renderContent` names; `ViewOf`, `OpenPostViews` |
| `HashRouter.INITIAL` | src/components/Router.jsx:13-16 | the state before the first fragment is read; `Router.constructor` |
| `VisitorCounter.BOT_KEYWORDS` | lambda/lambda-visitor-counter/index.py:23 | the seven bot keywords; `IsBot`, `KeywordIsBot` |
| `VisitorCounter.COUNT_ID` | lambda/lambda-visitor-counter/index.py:35 | the id of the total's item; `VisitorKey` |

## Model

| member | source | states |
|---|---|---|
| Seqs.Filter | src/lib/blog.js:56-58 | the result is no longer than the input, is an order-preserving subsequence of it, and holds exactly the input's elements that pass the test |
| Seqs.FilterCounts | src/lib/blog.js:56-58 | every copy of a passing element is kept and every copy of a failing one dropped: each value occurs in the result as often as in the input when it passes, else never |
| Seqs.FilterKeepsAll | src/components/Blog.jsx:36 | a test every element passes keeps the whole sequence unchanged |
| Seqs.FilterKeepsNone | src/lib/blog.js:56-58 | a test no element passes gives the empty sequence |
| Seqs.Find | src/lib/blog.js:68 | `None` exactly when no element passes, otherwise the first element that passes |
| Seqs.FindUnique | src/lib/blog.js:68 | when exactly one element passes, `find` returns it |
| Seqs.FindInFilter | src/lib/blog.js:66-69 | finding in a filtered list is finding, in the whole list, the first element that passes both tests |
| Seqs.SubsequenceReflexive | src/components/Blog.jsx:26-28 | a sequence is an ordered subsequence of itself |
| ContentFilter.IsSet | src/components/Blog.jsx:26-28 | a filter applies only when both its type and its value are truthy; otherwise the list is shown whole and no indicator appears |
| ContentFilter.Keeps | src/components/Blog.jsx:30-36 | type `category` keeps the items of exactly that category, type `tag` the items carrying the tag, and any other type keeps everything |
| JsText.Split | src/components/Router.jsx:25 | `split('/')` gives at least one part; it gives two or more exactly when the separator occurs; no part contains the separator |
| JsText.JoinSplit | src/components/Router.jsx:25 | joining the parts with the separator recovers the string, so no character is lost, empty segments included |
| JsText.SplitSegment | src/components/Router.jsx:25 | a separator-free prefix followed by the separator splits off as the first part |
| JsText.SplitNone | src/components/Router.jsx:25 | a string without the separator splits into itself alone |
| JsText.SplitThree | src/components/Router.jsx:25-26 | `a/b/c` with slash-free parts splits into exactly `[a, b, c]` |
| JsText.Take | lambda/lambda-visitor-counter/index.py:27 | Python `[:n]` is a prefix of length `min(n, len)` |
| JsText.StartsWith | src/components/Router.jsx:24 | `startsWith(p)`: the string begins with `p`, so `p` is no longer than it |
| JsText.Truthy | src/components/Blog.jsx:26 | `null` and the empty string are falsy and every other string is truthy |
| UriCoding.Unreserved | src/components/Router.jsx:80 | the characters `encodeURIComponent` copies unescaped: ASCII letters, digits and `- _ . ! ~ * ' ( )` |
| UriCoding.Utf8 | src/components/Router.jsx:80 | a character encodes to one to four bytes, and to one byte exactly below U+0080 |
| UriCoding.HexDigit | src/components/Router.jsx:80 | an escape digit is never `/` or `%` |
| UriCoding.HexValue | src/components/Router.jsx:29 | a parsed hex digit lies in 0..15 |
| UriCoding.HexRoundTrip | src/components/Router.jsx:29 | parsing the digit written for `n` gives back `n` |
| UriCoding.Escapes | src/components/Router.jsx:80 | escaping `n` bytes gives `3n` characters, none of them `/` |
| UriCoding.EncodeChar | src/components/Router.jsx:80 | an encoded character holds no `/` |
| UriCoding.EncodeURIComponent | src/components/Router.jsx:80-93 | the encoding of any string holds no `/`, so it stays one fragment segment |
| UriCoding.ReadByte | src/components/Router.jsx:29 | a byte is read only from a full three-character escape |
| UriCoding.ReadBytes | src/components/Router.jsx:29 | reading `n` escaped bytes gives `n` bytes and consumes at least `3n` characters |
| UriCoding.DecodeEscape | src/components/Router.jsx:29 | a decoded escape sequence consumes between 3 characters and the rest of the input |
| UriCoding.ReadEscape | src/components/Router.jsx:29 | the escape written for a byte reads back as that byte |
| UriCoding.ReadEscapes | src/components/Router.jsx:29 | the escapes written for a byte sequence read back as that sequence |
| UriCoding.Utf8Decodes | src/components/Router.jsx:29 | the lead byte of a multi-byte encoding announces its length, and the bytes decode to the character's code point |
| UriCoding.Utf8Two | src/components/Router.jsx:29 | a two-byte encoding announces two bytes and decodes to its code point |
| UriCoding.Utf8Three | src/components/Router.jsx:29 | a three-byte encoding announces three bytes and decodes to its code point |
| UriCoding.Utf8Four | src/components/Router.jsx:29 | a four-byte encoding announces four bytes and decodes to its code point |
| UriCoding.DecodeEscapesOfChar | src/components/Router.jsx:29 | the escaped UTF-8 of a character decodes to that character, consuming all of its escapes |
| UriCoding.MultiByteEscapes | src/components/Router.jsx:29 | once the escaped bytes of a character above U+007F are read, they decode to that character |
| UriCoding.ReadBytesStep | src/components/Router.jsx:29 | reading `n` escaped bytes is reading one escape and then `n - 1` more |
| UriCoding.DecodeEncodeChar | src/components/Router.jsx:29 | decoding the encoding of one character followed by text decodes that character first |
| UriCoding.DecodeEncode | src/components/Router.jsx:29 | `decodeURIComponent(encodeURIComponent(s)) == s` for every string (also line 80) |
| UriCoding.DecodeURIComponent | src/components/Router.jsx:29 | a string without `%` decodes to itself, and a decoded string is never longer than its input |
| UriCoding.EncodeUnreserved | src/components/Router.jsx:80 | a string of unreserved characters encodes to itself |
| UriCoding.EncodeConcat | src/components/Router.jsx:80 | encoding distributes over concatenation |
| UriCoding.EscapeExamples | src/components/Router.jsx:80 | a space encodes to `%20`, a slash to `%2F`, and the euro sign to `%E2%82%AC` |
| UriCoding.SpaceEscape | src/components/Router.jsx:80 | a space alone is written `%20` |
| UriCoding.EncodeWords | src/components/Router.jsx:80 | two unreserved words joined by a space encode with `%20` between them |
| UriCoding.TagExample | src/components/Projects.jsx:151 | the tag `AWS Lambda` is written as `AWS%20Lambda` and read back unchanged |
| UriCoding.MalformedHex | src/components/Router.jsx:29 | `%zz` does not decode: its digits are not hexadecimal |
| UriCoding.MalformedLonePercent | src/components/Router.jsx:29 | a lone `%` does not decode |
| UriCoding.MalformedTruncated | src/components/Router.jsx:29 | a three-byte sequence cut after two bytes does not decode |
| UriCoding.MalformedOverlong | src/components/Router.jsx:29 | the overlong two-byte form of `/` does not decode |
| UriCoding.MalformedSurrogate | src/components/Router.jsx:29 | the encoded surrogate U+D800 does not decode |
| HashRouter.Fragment | src/components/Router.jsx:21 | the fragment read is never empty: an empty hash reads as `home` |
| HashRouter.NavFilter | src/components/Router.jsx:73-97 | a filter navigation stores either the cleared filter or exactly its set arguments, and it clears exactly when the type or the value is missing or empty |
| HashRouter.FilterHash | src/components/Router.jsx:73-97 | the fragment a filter navigation writes; `FilterHashShape` gives its shape, and `BlogFilterRoundTrip` and `ProjectsFilterRoundTrip` read it back |
| HashRouter.FilterHashShape | src/components/Router.jsx:73-97 | the fragment written starts with the page name, and is the bare page name exactly when the type or the value is missing or empty |
| HashRouter.OnHashChange | src/components/Router.jsx:20-55 | a `blog/` fragment sets route `blog` and never touches the projects filter; a `projects/` fragment never touches the slug or the blog filter |
| HashRouter.ViewOf | src/components/Router.jsx:99-123 | a post is rendered exactly for route `blog` with a truthy slug; the lists get the router's filters; the projects list exactly for route `projects`; the hero exactly for `home` and for routes outside the seven pages |
| HashRouter.Router.RenderContent | src/components/Router.jsx:99-123 | the current state renders a post exactly for route `blog` with a truthy slug, and the hero exactly for `home` and unknown routes |
| HashRouter.Router.constructor | src/components/Router.jsx:13-16 | the router starts on `home` with no slug and both filters cleared |
| HashRouter.Router.SetHash | src/components/Hero.jsx:4-6 | a hash write made elsewhere changes only the fragment; the state follows only through the `hashchange` handler |
| HashRouter.Router.HandleHashChange | src/components/Router.jsx:20-55 | the fragment and the listener are not changed; one call succeeds exactly when the parse succeeds and then sets the parsed state; when decoding throws the state is unchanged |
| HashRouter.Router.Mount | src/components/Router.jsx:57-61 | on mount the fragment is handled once; the listener is registered exactly when that call does not throw |
| HashRouter.Router.HashChangeEvent | src/components/Router.jsx:60-61 | an event changes the state only once the listener is registered and the parse succeeds, and then to the parsed state |
| HashRouter.Router.NavigateTo | src/components/Router.jsx:65-71 | the hash and the route both become `r`, and the slug and both filters are cleared |
| HashRouter.Router.OpenPost | src/components/Router.jsx:113 | opening a post writes `blog/<slug>` and uses that raw string as the route |
| HashRouter.Router.NavigateToBlogFilter | src/components/Router.jsx:73-85 | the hash is the bare `blog`, or `blog/type/encoded value`; the new state is route `blog`, no slug, and the blog filter set or cleared; the projects filter is kept |
| HashRouter.Router.NavigateToProjectsFilter | src/components/Router.jsx:87-97 | the hash is the bare `projects`, or `projects/type/encoded value`; the new state is route `projects` with the projects filter set or cleared; slug and blog filter are kept |
| HashRouter.EmptyFragmentIsHome | src/components/Router.jsx:21 | an empty fragment resets to `home` and renders the hero (also lines 49-54, 106-107) |
| HashRouter.OnlyDecodingFails | src/components/Router.jsx:24-54 | parsing fails exactly on a three-segment `blog/` or `projects/` fragment whose value does not decode |
| HashRouter.HashChangeIdempotent | src/components/Router.jsx:20-61 | handling the same fragment again, as on mount and again on the event, changes nothing |
| HashRouter.PlainFragmentIsRoute | src/components/Router.jsx:49-54 | any other fragment becomes the route verbatim, with slug and filters cleared |
| HashRouter.PostFragment | src/components/Router.jsx:33-38 | `blog/<slug>` sets route `blog` and that slug, clears the blog filter, and keeps the projects filter |
| HashRouter.BlogSlugFragment | src/components/Router.jsx:33-38 | a `blog/` fragment whose rest does not split into exactly two segments opens the post named by the rest's first segment, clearing the blog filter |
| HashRouter.DeepBlogFragmentIsSlug | src/components/Router.jsx:33-38 | a four-segment `blog/a/b/c` opens the post `a` |
| HashRouter.BlogTrailingSlash | src/components/Router.jsx:33-38 | `blog/` gives an empty slug and renders the unfiltered blog list (also lines 101-103, 112-113) |
| HashRouter.ProjectsOtherFragmentKeepsState | src/components/Router.jsx:40-48 | every `projects/` fragment that does not have exactly three segments leaves the whole state unchanged |
| HashRouter.FilterFragment | src/components/Router.jsx:24-47 | a `<page>/<kind>/<value>` fragment built from slash-free parts splits back into exactly those three parts |
| HashRouter.MalformedFilterRejected | src/components/Router.jsx:26-47 | a three-segment filter fragment whose value does not decode is rejected on either page |
| HashRouter.MalformedExample | src/components/Router.jsx:29 | `blog/tag/%zz` is rejected |
| HashRouter.BlogFilterRoundTrip | src/components/Router.jsx:80-83 | the fragment written for a blog filter parses back to exactly the state the navigation set (also lines 24-32) |
| HashRouter.ProjectsFilterRoundTrip | src/components/Router.jsx:93-95 | the fragment written for a projects filter parses back to exactly the state the navigation set (also lines 40-47) |
| HashRouter.ClearedFilterReparse | src/components/Router.jsx:49-89 | the fragment of a cleared filter reparses with slug and both filters cleared |
| HashRouter.NavigateToAgrees | src/components/Router.jsx:49-71 | for a plain non-empty route, `navigateTo` sets exactly the state its fragment parses to |
| HashRouter.OpenPostViews | src/components/Router.jsx:101-121 | right after opening a post the hero is rendered; after the `hashchange` event the post is (also lines 33-38) |
| HashRouter.PostViewIff | src/components/Router.jsx:101-103 | a post is rendered exactly when the route is `blog` and the slug is truthy, and it is that slug |
| HashRouter.UnknownRouteShowsHero | src/components/Router.jsx:105-121 | a route outside the seven pages renders the hero |
| HashRouter.ListsGetRouterFilter | src/components/Router.jsx:110-113 | the projects and blog lists receive the router's own filters |
| AppShell.ActiveItems | src/components/Layout.jsx:71-134 | every active sidebar item carries the route; some item is active exactly when the route is a sidebar id; the active items keep sidebar order (also line 175) |
| AppShell.App.constructor | src/App.jsx:8 | the shell starts on `home` |
| AppShell.App.SetHash | src/components/Blog/BlogPost.jsx:28-30 | a hash write made elsewhere changes only the fragment |
| AppShell.App.HandleHashChange | src/App.jsx:12-15 | the route becomes the fragment, or `home` when it is empty; the fragment is untouched |
| AppShell.App.HandleNavigate | src/App.jsx:25-28 | the hash and the route both become `r` |
| AppShell.FragmentKeptVerbatim | src/App.jsx:13-14 | a non-empty fragment is stored unsplit |
| AppShell.NavigateThenHashChange | src/App.jsx:13-27 | rederiving after `handleNavigate(r)` keeps `r` when it is non-empty, and gives `home` for an empty one |
| AppShell.FilterLength | src/components/Layout.jsx:175 | the number of active items is the number of sidebar ids equal to the route |
| AppShell.AtMostOneActive | src/components/Layout.jsx:68-142 | the sidebar ids are distinct, so at most one item is active (also line 175) |
| AppShell.NoneActiveOnPaths | src/App.jsx:13-14 | no item is active on a fragment with a slash, such as a post or a filter |
| BlogData.Visible | src/lib/blog.js:57 | a post is listed when drafts are shown or its status is `published` |
| BlogData.VisiblePosts | src/lib/blog.js:54-59 | with drafts shown, the list unchanged; in every case an ordered subsequence holding exactly the visible posts, each as often as in the list |
| BlogData.GetBlogPosts | src/lib/blog.js:54-59 | with drafts shown, all posts; in every case an ordered subsequence of the library holding only visible posts |
| BlogData.GetAllBlogPosts | src/lib/blog.js:62-64 | holds every post, and every visible list is an ordered subsequence of it |
| BlogData.FindPost | src/lib/blog.js:66-69 | the result is the first visible post of the list with the slug; nothing is found exactly when no visible post has the slug |
| BlogData.GetBlogPost | src/lib/blog.js:66-69 | a post found has the slug and is visible |
| BlogData.SlugsDistinct | src/lib/blog.js:7-43 | the five slugs are pairwise distinct |
| BlogData.LookupFindsPost | src/lib/blog.js:66-69 | with drafts shown, each post is found by its own slug |
| BlogData.DraftsHidden | src/lib/blog.js:13-58 | every post is a draft, so with drafts hidden nothing is listed and every lookup fails |
| BlogData.GetBlogPostContent | src/lib/blog.js:71-93 | an unknown module path gives the "Post not found" markup; a known one is rendered, or gives the error markup when loading fails; `RenderedIsOwnModule` proves what is rendered is the slug's own module |
| BlogData.PostPath | src/lib/blog.js:77 | the module path of a slug: the blog content directory, the slug, then `.md` |
| BlogData.SlugOfPath | src/lib/blog.js:77 | the slug is read back from its module path, between the directory prefix and the `.md` suffix |
| BlogData.PostPathInjective | src/lib/blog.js:77 | two slugs with the same module path are the same slug |
| BlogData.RenderedIsOwnModule | src/lib/blog.js:71-87 | rendered content comes from a known module whose path names the requested slug, and distinct slugs never render the same module |
| BlogPage.FilteredPosts | src/components/Blog.jsx:25-38 | with no filter, the posts unchanged; in every case an ordered subsequence holding exactly the posts the filter keeps, each as often as in the input |
| BlogPage.ShowsFilterIndicator | src/components/Blog.jsx:59 | the indicator shows exactly when both the type and the value are truthy |
| BlogPage.ShowsNoResults | src/components/Blog.jsx:119 | the no-results block shows exactly when there are posts, the filter is set, and it keeps none of them |
| BlogPage.CategoryFilter | src/components/Blog.jsx:31-32 | a `category` filter keeps exactly the posts of that category |
| BlogPage.TagFilter | src/components/Blog.jsx:33-34 | a `tag` filter keeps exactly the posts carrying that tag |
| BlogPage.OtherKindKeepsAll | src/components/Blog.jsx:36 | a set filter of another type keeps every post |
| BlogPage.OwnFilterKeepsCard | src/components/Blog.jsx:31-34 | a card's own category or tag filter keeps the card |
| BlogPage.NoResultsNeedsFilter | src/components/Blog.jsx:59 | the no-results block shows only with the filter indicator, under a `category` or `tag` filter (also line 119) |
| ProjectsPage.FilteredProjects | src/components/Projects.jsx:74-87 | with no filter, the projects unchanged; in every case an ordered subsequence holding exactly the projects the filter keeps, each as often as in the input |
| ProjectsPage.ShowsFilterIndicator | src/components/Projects.jsx:97 | the indicator shows exactly when both the type and the value are truthy |
| ProjectsPage.ShowsNoResults | src/components/Projects.jsx:188 | the no-results block shows exactly when there are projects, the filter is set, and it keeps none of them |
| ProjectsPage.CategoryFilter | src/components/Projects.jsx:80-81 | a `category` filter keeps exactly the projects of that category |
| ProjectsPage.TagFilter | src/components/Projects.jsx:82-83 | a `tag` filter keeps exactly the projects carrying that tag |
| ProjectsPage.OtherKindKeepsAll | src/components/Projects.jsx:85 | a set filter of another type keeps every project |
| ProjectsPage.OwnFilterKeepsCard | src/components/Projects.jsx:124-151 | a project's own category or tag filter keeps the project |
| ProjectsPage.NoResultsNeedsFilter | src/components/Projects.jsx:97 | the no-results block shows only with the filter indicator, under a `category` or `tag` filter (also line 188) |
| ProjectsPage.CategoriesSet | src/components/Projects.jsx:124 | every project has a non-empty category to filter by |
| CertificationsPage.GetCertsByCategory | src/components/Certifications.jsx:117-119 | an ordered subsequence holding exactly the certificates of the category, each as often as in the input |
| CertificationsPage.Groups | src/components/Certifications.jsx:127-129 | the blocks rendered; their properties are the lemmas `GroupsHoldTheirCategory`, `GroupsInCategoryOrder`, `NonEmptyCategoryHasGroup` and `ExactlyOneGroup` |
| CertificationsPage.DateShown | src/components/Certifications.jsx:144-145 | the date a card shows; `EveryCardShowsDate` proves it is present on every card |
| CertificationsPage.GroupsHoldTheirCategory | src/components/Certifications.jsx:127-129 | every block is non-empty and holds exactly the certificates of its category, which is one of the categories |
| CertificationsPage.GroupsInCategoryOrder | src/components/Certifications.jsx:127 | blocks appear in the order of the categories |
| CertificationsPage.NonEmptyCategoryHasGroup | src/components/Certifications.jsx:128-129 | a category with a certificate gets a block |
| CertificationsPage.OccurrencesCountIds | src/components/Certifications.jsx:127-128 | a certificate is shown once for each category carrying its id |
| CertificationsPage.DistinctIdOnce | src/components/Certifications.jsx:5-10 | among distinct ids, a present id is counted once |
| CertificationsPage.AbsentIdNone | src/components/Certifications.jsx:5-10 | an id no category carries is counted zero times |
| CertificationsPage.ExactlyOneGroup | src/components/Certifications.jsx:127-128 | with distinct ids, a certificate of a listed category appears in exactly one block |
| CertificationsPage.CategoryIdsDistinct | src/components/Certifications.jsx:5-10 | the category ids of the blocks are pairwise distinct |
| CertificationsPage.CertCategoriesListed | src/components/Certifications.jsx:5-125 | every certificate's category is the id of some block |
| CertificationsPage.EveryCertInOneGroup | src/components/Certifications.jsx:5-115 | every certificate of the page appears in exactly one block (also lines 127-128) |
| CertificationsPage.LinkLabel | src/components/Certifications.jsx:165 | the label is `Info` exactly for in-progress certificates and `Verify` exactly for the others; `LabelMatchesDate` ties it to the date shown |
| CertificationsPage.EveryCardShowsDate | src/components/Certifications.jsx:12-115 | in-progress certificates have an expected date and the others a year, so every card shows a date (also lines 144-145) |
| CertificationsPage.LabelMatchesDate | src/components/Certifications.jsx:144-165 | on every card an `Info` label goes with a present expected date and a `Verify` label with a present year |
| VisitorCounter.Lower | lambda/lambda-visitor-counter/index.py:24 | lowering keeps the length and lowers each ASCII letter in place |
| VisitorCounter.AnyIn | lambda/lambda-visitor-counter/index.py:24 | true exactly when one of the keywords occurs in the text |
| VisitorCounter.IsBot | lambda/lambda-visitor-counter/index.py:23-24 | a user agent is a bot's exactly when one of the seven keywords occurs in its lowered form |
| VisitorCounter.VisitorKey | lambda/lambda-visitor-counter/index.py:27-31 | a visitor id never collides with the total's id `visitor-count` |
| VisitorCounter.HoursSince | lambda/lambda-visitor-counter/index.py:50 | the hours since the last visit, by true division; `DayInSeconds` proves its 24-hour test is a test on seconds |
| VisitorCounter.DayInSeconds | lambda/lambda-visitor-counter/index.py:50-52 | `hours >= 24` holds exactly when at least 86400 seconds have passed |
| VisitorCounter.Decide | lambda/lambda-visitor-counter/index.py:41-64 | a bot is never counted; no record counts as new; with a record the visit counts exactly after 86400 s, a missing `last_visit` being 0; a visit counts exactly when its type is new or returning |
| VisitorCounter.NewRecord | lambda/lambda-visitor-counter/index.py:80-88 | the record stamps `now` and the hash, keeps exactly the first 200 characters of the user agent (all of a shorter one), and adds one to the previous visit count (0 when absent) |
| VisitorCounter.Serve | lambda/lambda-visitor-counter/index.py:12-121 | a 500 answer writes nothing and comes from an absent total; the table is either unchanged or has its total raised by one and stamped `now`; a bot writes nothing and is answered `bot_filtered` |
| VisitorCounter.StatusCode | lambda/lambda-visitor-counter/index.py:92-121 | a counted answer has status 200 and the error answer status 500 |
| VisitorCounter.VisitorTable.constructor | lambda/lambda-visitor-counter/index.py:8-10 | the table holds the given contents |
| VisitorCounter.VisitorTable.Handle | lambda/lambda-visitor-counter/index.py:12-121 | the new table and the response are those of `Serve` on the old table |
| VisitorCounter.BotNeverCounts | lambda/lambda-visitor-counter/index.py:62-67 | a bot is answered `bot_filtered` with the stored total, and nothing is written |
| VisitorCounter.NewVisitorCounts | lambda/lambda-visitor-counter/index.py:43-46 | a human with no record is counted as new, and the total plus one is returned (also line 90) |
| VisitorCounter.ReturningVisitorCounts | lambda/lambda-visitor-counter/index.py:48-59 | a human with a record is counted as returning exactly after a full day, otherwise reported as a duplicate |
| VisitorCounter.NotCountingWritesNothing | lambda/lambda-visitor-counter/index.py:67 | when the visit does not count, the table is unchanged |
| VisitorCounter.CountMovesByOne | lambda/lambda-visitor-counter/index.py:69-102 | the total either stays or goes up by exactly one; the returned count is the total read (0 when absent) plus one exactly when something was written (also line 36) |
| VisitorCounter.FailureWritesNothing | lambda/lambda-visitor-counter/index.py:69-77 | a 500 answer writes nothing, and comes from an absent total (also lines 109-121) |
| VisitorCounter.CountedVisitRecord | lambda/lambda-visitor-counter/index.py:69-88 | a counted visit rewrites the caller's record, stamps `last_updated`, and leaves every other record as it was |
| VisitorCounter.SecondVisitWithinDay | lambda/lambda-visitor-counter/index.py:48-59 | after a counted visit, the same client is a duplicate for the next 86400 s and nothing is written |
| VisitorCounter.SecondVisitNextDay | lambda/lambda-visitor-counter/index.py:48-55 | a day after a counted visit, the same client counts again as returning |
| VisitorCounter.LowerIdempotent | lambda/lambda-visitor-counter/index.py:24 | lowering twice is lowering once |
| VisitorCounter.BotCheckIgnoresCase | lambda/lambda-visitor-counter/index.py:24 | the bot check ignores ASCII case |
| VisitorCounter.LowerConcat | lambda/lambda-visitor-counter/index.py:24 | lowering distributes over concatenation |
| VisitorCounter.ContainsExtends | lambda/lambda-visitor-counter/index.py:24 | a substring stays a substring when text is added around it |
| VisitorCounter.BotAnywhere | lambda/lambda-visitor-counter/index.py:23-24 | text around a bot's user agent does not hide it |
| VisitorCounter.KeywordIsBot | lambda/lambda-visitor-counter/index.py:23-24 | each keyword, in any ASCII case, is a bot's user agent by itself |

## Left out

- Rendering: JSX, CSS, SVG icons, the layout's mobile menu, scroll and observer state, and the hero's "Read More" toggle are presentation only.
- The contact forms and the old site's visitor-counter widget: they are network requests whose outcome the model cannot see.
- `BlogPost.jsx` loading views. Its tag and category clicks call an `onFilterClick` the router never passes, so they are not filter navigations.
- Markdown rendering with `marked` and the module list from `import.meta.glob`: the known module paths are a parameter, and rendering is the value `Rendered(path)`.
- `import.meta.env`: whether drafts are shown is a parameter.
- `formatDate`: it relies on `Date` and the locale.
- DynamoDB, `hashlib.sha256`, `datetime.utcnow`, `json.dumps` and the CORS headers:
  - the table is the class's fields;
  - the digest is a function parameter;
  - the clock is the parameter `now`;
  - the body is the `Response` datatype and the status code is `StatusCode`.
- DynamoDB service errors other than the rejected update expression: they are I/O failures the model does not see.
- Concurrent Lambda invocations, the read-then-increment race, and a `put_item` failing after `update_item` succeeded: the model runs one invocation at a time and writes atomically.
- Browser and React details:
  - whether assigning an identical hash fires `hashchange`;
  - the browser's own escaping of `location.hash`;
  - React state batching;
  - `encodeURIComponent` throwing on lone surrogates, which Dafny strings cannot hold.
- Post excerpts, project descriptions and links beyond those kept, and certificate URLs: they are displayed, never computed with.
- VisitorCounter.Lower: only ASCII letters are lowered. Python's `str.lower` also lowers other letters, but no letter outside ASCII lowers to a string that creates one of the seven keywords. U+0130 gives `i` followed by a combining dot, and the Kelvin sign gives `k`, which no keyword holds. So the bot check agrees.
- VisitorCounter.VisitorTable.Handle: a user agent or source IP sent as JSON `null` is not modelled. The missing key (`None` in `Request`) is, with the source's defaults `unknown` and the empty string.
- VisitorCounter.DayInSeconds: `(now - last) / 3600` is exact real division here. Python rounds it to a float, but no integer under 86400 rounds up to 24.0, so the test agrees.
- ProjectsPage: the distinctness of the project names is not stated.
- HashRouter.Router.Mount: after a `URIError` on mount, React unmounts the app and the page is blank. The model leaves the router in its state from before the call with no listener. It does not model the unmount, because React's error handling is outside this model.
