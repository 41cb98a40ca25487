/** The hash router: the location fragment is parsed into the current route, the
    blog post being read, and the blog and project filters; navigation actions write
    the fragment and the state together; the state selects the page to render. */
module HashRouter {
  import opened Wrappers
  import opened JsText
  import opened UriCoding
  import opened ContentFilter

  /** The router's four pieces of state. `slug` is `blogPostSlug`; `None` is `null`. */
  datatype NavState = NavState(route: string, slug: Option<string>, blogFilter: Filter, projectsFilter: Filter)

  /** The state before the first fragment is read. */
  const INITIAL := NavState("home", None, NoFilter, NoFilter)

  /** The page `renderContent` selects, with the props that depend on the state. */
  datatype View =
    | HeroView
    | SkillsView
    | ProjectsView(filter: Filter)
    | BlogView(filter: Filter)
    | BlogPostView(slug: string)
    | CertificationsView
    | ExperienceView
    | ContactView

  /** The seven routes `renderContent` names. */
  const PAGES: seq<string> := ["home", "skills", "projects", "blog", "certifications", "experience", "contact"]

  /** `window.location.hash.slice(1) || 'home'`, where `hash` is the fragment without its `#`. */
  function Fragment(hash: string): (h: string)
    ensures h != ""
  {
    if hash == "" then "home" else hash
  }

  /** What `handleHashChange` makes of the fragment `hash` in state `n`: the new state, or
      `None` when `decodeURIComponent` throws, which happens before any state is set. */
  function OnHashChange(hash: string, n: NavState): (r: Option<NavState>)
    ensures r.Some? && StartsWith(Fragment(hash), "blog/") ==>
              r.value.route == "blog" && r.value.projectsFilter == n.projectsFilter
    ensures r.Some? && StartsWith(Fragment(hash), "projects/") ==>
              r.value.slug == n.slug && r.value.blogFilter == n.blogFilter
  {
    var h := Fragment(hash);
    if StartsWith(h, "blog/") then
      assert h[..5][4] == '/';
      var parts := Split(h, '/');
      if |parts| == 3 then
        match DecodeURIComponent(parts[2])
        case None => None
        case Some(v) => Some(NavState("blog", None, Filter(Some(parts[1]), Some(v)), n.projectsFilter))
      else
        Some(NavState("blog", Some(parts[1]), NoFilter, n.projectsFilter))
    else if StartsWith(h, "projects/") then
      var parts := Split(h, '/');
      if |parts| == 3 then
        match DecodeURIComponent(parts[2])
        case None => None
        case Some(v) => Some(n.(route := "projects", projectsFilter := Filter(Some(parts[1]), Some(v))))
      else
        Some(n)
    else
      Some(NavState(h, None, NoFilter, NoFilter))
  }

  /** `renderContent()`: a blog post when the route is `blog` and the slug is truthy,
      otherwise the page named by the route, and the hero for any other route. */
  function ViewOf(n: NavState): (v: View)
    ensures v.BlogPostView? <==> n.route == "blog" && Truthy(n.slug)
    ensures v.BlogPostView? ==> v.slug == n.slug.value
    ensures v.BlogView? ==> n.route == "blog" && v.filter == n.blogFilter
    ensures v.ProjectsView? <==> n.route == "projects"
    ensures v.ProjectsView? ==> v.filter == n.projectsFilter
    ensures v == HeroView <==> n.route == "home" || n.route !in PAGES
  {
    if n.route == "blog" && Truthy(n.slug) then BlogPostView(n.slug.value)
    else if n.route == "home" then HeroView
    else if n.route == "skills" then SkillsView
    else if n.route == "projects" then ProjectsView(n.projectsFilter)
    else if n.route == "blog" then BlogView(n.blogFilter)
    else if n.route == "certifications" then CertificationsView
    else if n.route == "experience" then ExperienceView
    else if n.route == "contact" then ContactView
    else HeroView
  }

  /** The fragment a filter navigation writes for `page`: the bare page when the type or
      the value is missing or empty, otherwise `page/type/encodeURIComponent(value)`. */
  function FilterHash(page: string, kind: Option<string>, value: Option<string>): string {
    if !Truthy(kind) || !Truthy(value) then page
    else page + "/" + kind.value + "/" + EncodeURIComponent(value.value)
  }

  /** The fragment a filter navigation writes starts with the page name, and is the bare
      page name exactly when the filter is cleared. */
  lemma FilterHashShape(page: string, kind: Option<string>, value: Option<string>)
    ensures page <= FilterHash(page, kind, value)
    ensures FilterHash(page, kind, value) == page <==> !Truthy(kind) || !Truthy(value)
  {
  }

  /** The filter a filter navigation stores: cleared when the type or the value is
      missing or empty, otherwise exactly the arguments. */
  function NavFilter(kind: Option<string>, value: Option<string>): (f: Filter)
    ensures f == NoFilter || (IsSet(f) && f == Filter(kind, value))
    ensures f == NoFilter <==> !Truthy(kind) || !Truthy(value)
  {
    if !Truthy(kind) || !Truthy(value) then NoFilter else Filter(kind, value)
  }

  class Router {
    var route: string
    var slug: Option<string>
    var blogFilter: Filter
    var projectsFilter: Filter
    /** `window.location.hash` without its `#`. */
    var hash: string
    /** Whether the `hashchange` listener has been registered. */
    var listening: bool

    function Nav(): NavState
      reads this
    {
      NavState(route, slug, blogFilter, projectsFilter)
    }

    /** `renderContent()` of the current state. */
    function RenderContent(): (v: View)
      reads this
      ensures v.BlogPostView? <==> route == "blog" && Truthy(slug)
      ensures v == HeroView <==> route == "home" || route !in PAGES
    {
      ViewOf(Nav())
    }

    /** The router as first rendered, before its effect reads the fragment. */
    constructor (initialHash: string)
      ensures Nav() == INITIAL && hash == initialHash && !listening
    {
      route, slug, blogFilter, projectsFilter := "home", None, NoFilter, NoFilter;
      hash := initialHash;
      listening := false;
    }

    /** A write to `window.location.hash` made elsewhere (the hero's buttons, the post
        page's back link); the state follows only through `HashChangeEvent`. */
    method SetHash(h: string)
      modifies this`hash
      ensures hash == h && Nav() == old(Nav())
    {
      hash := h;
    }

    /** One run of `handleHashChange`. `ok` is false when `decodeURIComponent` throws,
        which happens before any setter runs, so the state is left as it was. */
    method HandleHashChange() returns (ok: bool)
      modifies this
      ensures hash == old(hash) && listening == old(listening)
      ensures ok == OnHashChange(old(hash), old(Nav())).Some?
      ensures Nav() == if ok then OnHashChange(old(hash), old(Nav())).value else old(Nav())
    {
      var h := if hash == "" then "home" else hash;
      if StartsWith(h, "blog/") {
        assert h[..5][4] == '/';
        var parts := Split(h, '/');
        if |parts| == 3 {
          var filterType := parts[1];
          var filterValue := DecodeURIComponent(parts[2]);
          if filterValue.None? {
            ok := false;
            return;
          }
          route := "blog";
          slug := None;
          blogFilter := Filter(Some(filterType), Some(filterValue.value));
        } else {
          var postSlug := parts[1];
          route := "blog";
          slug := Some(postSlug);
          blogFilter := NoFilter;
        }
      } else if StartsWith(h, "projects/") {
        var parts := Split(h, '/');
        if |parts| == 3 {
          var filterType := parts[1];
          var filterValue := DecodeURIComponent(parts[2]);
          if filterValue.None? {
            ok := false;
            return;
          }
          route := "projects";
          projectsFilter := Filter(Some(filterType), Some(filterValue.value));
        }
      } else {
        route := h;
        slug := None;
        blogFilter := NoFilter;
        projectsFilter := NoFilter;
      }
      ok := true;
    }

    /** The effect run once on mount: `handleHashChange()` on the current fragment, then
        the listener is registered. A URIError thrown by that first call escapes the
        effect before the listener is added. No error boundary catches it, so React
        unmounts the whole tree and the page is blank. The model stops short of that:
        it keeps the state from before the call with no listener registered. */
    method Mount()
      requires !listening
      modifies this
      ensures hash == old(hash)
      ensures listening == OnHashChange(old(hash), old(Nav())).Some?
      ensures Nav() == if listening then OnHashChange(old(hash), old(Nav())).value else old(Nav())
    {
      var ok := HandleHashChange();
      if ok {
        listening := true;
      }
    }

    /** A `hashchange` event: handled by the listener, if it was registered; a URIError
        thrown there aborts that one call and the listener stays. */
    method HashChangeEvent()
      modifies this
      ensures hash == old(hash) && listening == old(listening)
      ensures Nav() == if listening && OnHashChange(old(hash), old(Nav())).Some?
                       then OnHashChange(old(hash), old(Nav())).value else old(Nav())
    {
      if listening {
        var ok := HandleHashChange();
      }
    }

    /** `navigateTo(r)`: writes `r` to the fragment, takes it as the route, and clears
        the slug and both filters. */
    method NavigateTo(r: string)
      modifies this
      ensures hash == r
      ensures Nav() == NavState(r, None, NoFilter, NoFilter)
      ensures listening == old(listening)
    {
      hash := r;
      route := r;
      slug := None;
      blogFilter := NoFilter;
      projectsFilter := NoFilter;
    }

    /** `onPostClick(s)` on the blog list: `navigateTo('blog/' + s)`. */
    method OpenPost(s: string)
      modifies this
      ensures hash == "blog/" + s
      ensures Nav() == NavState("blog/" + s, None, NoFilter, NoFilter)
      ensures listening == old(listening)
    {
      NavigateTo("blog/" + s);
    }

    /** `navigateToBlogFilter(type, value)`: route `blog`, no slug, the blog filter set or
        cleared; the projects filter is not touched. */
    method NavigateToBlogFilter(kind: Option<string>, value: Option<string>)
      modifies this
      ensures hash == FilterHash("blog", kind, value)
      ensures Nav() == NavState("blog", None, NavFilter(kind, value), old(projectsFilter))
      ensures listening == old(listening)
    {
      if !Truthy(kind) || !Truthy(value) {
        assert FilterHash("blog", kind, value) == "blog" && NavFilter(kind, value) == NoFilter;
        hash := "blog";
        route := "blog";
        slug := None;
        blogFilter := NoFilter;
      } else {
        assert NavFilter(kind, value) == Filter(kind, value);
        hash := "blog/" + kind.value + "/" + EncodeURIComponent(value.value);
        route := "blog";
        slug := None;
        blogFilter := Filter(kind, value);
      }
    }

    /** `navigateToProjectsFilter(type, value)`: route `projects`, the projects filter set
        or cleared; the slug and the blog filter are not touched. */
    method NavigateToProjectsFilter(kind: Option<string>, value: Option<string>)
      modifies this
      ensures hash == FilterHash("projects", kind, value)
      ensures Nav() == NavState("projects", old(slug), old(blogFilter), NavFilter(kind, value))
      ensures listening == old(listening)
    {
      if !Truthy(kind) || !Truthy(value) {
        assert FilterHash("projects", kind, value) == "projects" && NavFilter(kind, value) == NoFilter;
        hash := "projects";
        route := "projects";
        projectsFilter := NoFilter;
      } else {
        assert NavFilter(kind, value) == Filter(kind, value);
        hash := "projects/" + kind.value + "/" + EncodeURIComponent(value.value);
        route := "projects";
        projectsFilter := Filter(kind, value);
      }
    }
  }

  // ---- What the fragment parser does ----

  /** An empty fragment is read as `home`, which clears everything. */
  lemma EmptyFragmentIsHome(n: NavState)
    ensures OnHashChange("", n) == Some(INITIAL)
    ensures ViewOf(OnHashChange("", n).value) == HeroView
  {
  }

  /** Parsing only ever fails where `decodeURIComponent` is called: a `blog/` or
      `projects/` fragment of exactly three segments whose last one is malformed. */
  lemma OnlyDecodingFails(hash: string, n: NavState)
    ensures OnHashChange(hash, n).None? <==>
      var h := Fragment(hash);
      (StartsWith(h, "blog/") || StartsWith(h, "projects/")) &&
      |Split(h, '/')| == 3 && DecodeURIComponent(Split(h, '/')[2]).None?
  {
  }

  /** Handling the same fragment a second time changes nothing: the state a fragment
      produces is a fixed point of that fragment. */
  lemma HashChangeIdempotent(hash: string, n: NavState)
    requires OnHashChange(hash, n).Some?
    ensures OnHashChange(hash, OnHashChange(hash, n).value) == OnHashChange(hash, n)
  {
  }

  /** A fragment that is neither a `blog/` nor a `projects/` path is taken verbatim as
      the route, and slug and both filters are cleared. */
  lemma PlainFragmentIsRoute(hash: string, n: NavState)
    requires hash != "" && !StartsWith(hash, "blog/") && !StartsWith(hash, "projects/")
    ensures OnHashChange(hash, n) == Some(NavState(hash, None, NoFilter, NoFilter))
  {
  }

  /** Any `blog/` fragment that does not split into exactly three segments is read as a
      post: its second segment becomes the slug and the blog filter is cleared. */
  lemma {:induction false} BlogSlugFragment(rest: string, n: NavState)
    requires |Split(rest, '/')| != 2
    ensures OnHashChange("blog/" + rest, n) ==
      Some(NavState("blog", Some(Split(rest, '/')[0]), NoFilter, n.projectsFilter))
  {
    var h := "blog/" + rest;
    assert h == "blog" + ['/'] + rest;
    assert h[..5] == "blog/";
    SplitSegment("blog", '/', rest);
  }

  /** `blog/<slug>` with a slash-free slug opens that post and clears the blog filter;
      the projects filter is kept. */
  lemma {:induction false} PostFragment(s: string, n: NavState)
    requires '/' !in s
    ensures OnHashChange("blog/" + s, n) == Some(NavState("blog", Some(s), NoFilter, n.projectsFilter))
  {
    SplitNone(s, '/');
    BlogSlugFragment(s, n);
  }

  /** More than three segments: the second one is taken as a post slug and the rest is
      dropped. */
  lemma {:induction false} DeepBlogFragmentIsSlug(a: string, b: string, c: string, n: NavState)
    requires '/' !in a && '/' !in b && '/' !in c
    ensures OnHashChange("blog/" + a + "/" + b + "/" + c, n) ==
      Some(NavState("blog", Some(a), NoFilter, n.projectsFilter))
  {
    var rest := a + "/" + b + "/" + c;
    assert "blog/" + a + "/" + b + "/" + c == "blog/" + rest;
    SplitThree(a, b, c, '/');
    BlogSlugFragment(rest, n);
  }

  /** `blog/` alone gives an empty slug, which is falsy: the blog list is shown. */
  lemma BlogTrailingSlash(n: NavState)
    ensures OnHashChange("blog/", n) == Some(NavState("blog", Some(""), NoFilter, n.projectsFilter))
    ensures ViewOf(OnHashChange("blog/", n).value) == BlogView(NoFilter)
  {
    PostFragment("", n);
    assert "blog/" + "" == "blog/";
    var m := NavState("blog", Some(""), NoFilter, n.projectsFilter);
    assert !Truthy(m.slug) && ViewOf(m) == BlogView(NoFilter);
  }

  /** Any `projects/` fragment that does not split into exactly three segments leaves
      the whole state as it was. */
  lemma {:induction false} ProjectsOtherFragmentKeepsState(rest: string, n: NavState)
    requires |Split(rest, '/')| != 2
    ensures OnHashChange("projects/" + rest, n) == Some(n)
  {
    var h := "projects/" + rest;
    assert h == "projects" + ['/'] + rest;
    assert h[..9] == "projects/";
    assert h[..5] == "proje";
    SplitSegment("projects", '/', rest);
  }

  /** The shape of a three-segment filter fragment `page/kind/v`: which prefix it has and
      how it splits. */
  lemma {:induction false} FilterFragment(page: string, kind: string, v: string)
    requires page == "blog" || page == "projects"
    requires '/' !in kind && '/' !in v
    ensures var h := page + "/" + kind + "/" + v;
      (StartsWith(h, "blog/") <==> page == "blog") &&
      (page == "projects" ==> StartsWith(h, "projects/")) &&
      Split(h, '/') == [page, kind, v]
  {
    var h := page + "/" + kind + "/" + v;
    assert h == page + ['/'] + kind + ['/'] + v;
    assert h[..|page| + 1] == page + "/";
    if page == "projects" {
      assert h[..5] == "proje";
    }
    SplitThree(page, kind, v, '/');
  }

  /** A malformed escape in the value segment makes `decodeURIComponent` throw, so the
      fragment is rejected whatever the page. */
  lemma {:induction false} MalformedFilterRejected(page: string, kind: string, v: string, n: NavState)
    requires page == "blog" || page == "projects"
    requires '/' !in kind && '/' !in v && DecodeURIComponent(v).None?
    ensures OnHashChange(page + "/" + kind + "/" + v, n).None?
  {
    FilterFragment(page, kind, v);
  }

  /** For instance `blog/tag/%zz`. */
  lemma MalformedExample(n: NavState)
    ensures OnHashChange("blog/tag/%zz", n).None?
  {
    MalformedHex();
    assert "blog/tag/%zz" == "blog" + "/" + "tag" + "/" + "%zz";
    MalformedFilterRejected("blog", "tag", "%zz", n);
  }

  // ---- Navigation and the fragment agree ----

  /** The fragment a blog filter navigation writes parses back to the state it set:
      the encoded value decodes to the original, slashes and all. */
  lemma {:induction false} BlogFilterRoundTrip(kind: string, value: string, n: NavState)
    requires kind != "" && value != "" && '/' !in kind
    ensures OnHashChange(FilterHash("blog", Some(kind), Some(value)), n) ==
      Some(NavState("blog", None, NavFilter(Some(kind), Some(value)), n.projectsFilter))
  {
    var e := EncodeURIComponent(value);
    assert FilterHash("blog", Some(kind), Some(value)) == "blog" + "/" + kind + "/" + e;
    FilterFragment("blog", kind, e);
    DecodeEncode(value);
  }

  /** The same for the projects filter; slug and blog filter are kept in both. */
  lemma {:induction false} ProjectsFilterRoundTrip(kind: string, value: string, n: NavState)
    requires kind != "" && value != "" && '/' !in kind
    ensures OnHashChange(FilterHash("projects", Some(kind), Some(value)), n) ==
      Some(n.(route := "projects", projectsFilter := NavFilter(Some(kind), Some(value))))
  {
    var e := EncodeURIComponent(value);
    assert FilterHash("projects", Some(kind), Some(value)) == "projects" + "/" + kind + "/" + e;
    FilterFragment("projects", kind, e);
    DecodeEncode(value);
  }

  /** Clearing a filter writes the bare page name; when that fragment is read it also
      clears the other page's filter and the slug, which the navigation itself kept. */
  lemma ClearedFilterReparse(page: string, n: NavState)
    requires page == "blog" || page == "projects"
    ensures OnHashChange(FilterHash(page, None, None), n) == Some(NavState(page, None, NoFilter, NoFilter))
  {
  }

  /** `navigateTo(r)` for a non-empty plain route sets exactly the state its fragment
      parses to. */
  lemma NavigateToAgrees(r: string, n: NavState)
    requires r != "" && !StartsWith(r, "blog/") && !StartsWith(r, "projects/")
    ensures OnHashChange(r, n) == Some(NavState(r, None, NoFilter, NoFilter))
  {
  }

  /** Opening a post sets the route to `blog/<slug>`, which `renderContent` does not
      name, so the hero is shown until the `hashchange` event reads the fragment and
      shows the post. */
  lemma OpenPostViews(s: string, n: NavState)
    requires s != "" && '/' !in s
    ensures ViewOf(NavState("blog/" + s, None, NoFilter, NoFilter)) == HeroView
    ensures OnHashChange("blog/" + s, n).Some?
    ensures ViewOf(OnHashChange("blog/" + s, n).value) == BlogPostView(s)
  {
    var r := "blog/" + s;
    assert r[0] == 'b' && |r| > 5;
    assert r !in PAGES by {
      assert forall i :: 0 <= i < |PAGES| ==> PAGES[i][0] != 'b' || |PAGES[i]| == 4;
    }
    PostFragment(s, n);
  }

  // ---- What is rendered ----

  /** A post is rendered exactly when the route is `blog` and the slug is truthy, and
      then it is that slug. */
  lemma PostViewIff(n: NavState)
    ensures ViewOf(n).BlogPostView? <==> n.route == "blog" && Truthy(n.slug)
    ensures ViewOf(n).BlogPostView? ==> ViewOf(n).slug == n.slug.value
  {
  }

  /** Every route outside the seven pages renders the hero. */
  lemma UnknownRouteShowsHero(n: NavState)
    requires forall i :: 0 <= i < |PAGES| ==> n.route != PAGES[i]
    ensures ViewOf(n) == HeroView
  {
    assert n.route != PAGES[0] && n.route != PAGES[1] && n.route != PAGES[2] && n.route != PAGES[3];
    assert n.route != PAGES[4] && n.route != PAGES[5] && n.route != PAGES[6];
  }

  /** The filter handed to the blog and projects lists is the router's own. */
  lemma ListsGetRouterFilter(n: NavState)
    ensures n.route == "projects" ==> ViewOf(n) == ProjectsView(n.projectsFilter)
    ensures n.route == "blog" && !Truthy(n.slug) ==> ViewOf(n) == BlogView(n.blogFilter)
  {
  }
}
