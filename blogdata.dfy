/** The blog's single source of posts and the functions that select from it. */
module BlogData {
  import opened Wrappers
  import opened Seqs

  /** A post record; the excerpt is display text and is not modelled. */
  datatype Post = Post(slug: string, title: string, date: string, category: string,
                       tags: seq<string>, status: string)

  const ALL_POSTS: seq<Post> := [
    Post("ai-governance-framework",
         "Building an AWS AI Governance Framework with 67 Automated Controls",
         "2026-01-02", "GRC",
         ["AI Governance", "AWS", "ISO 27001", "ISO 42001", "Policy-as-Code", "OPA"], "draft"),
    Post("policy-as-code-guide",
         "Policy-as-Code: From Theory to Production with OPA and AWS",
         "2026-01-02", "DevOps",
         ["Policy-as-Code", "OPA", "AWS", "DevOps", "Compliance", "Automation"], "draft"),
    Post("grc-ai-governance-serverless-platform",
         "Building a GRC AI Governance Serverless Platform with 67 Automated Controls",
         "2026-01-02", "GRC",
         ["AWS", "Serverless", "AI Governance", "GRC", "Lambda", "API Gateway", "DynamoDB", "S3",
          "CloudFormation", "Policy-as-Code"], "draft"),
    Post("fire-calculator-retirement-app",
         "Building a FIRE Calculator with Monte Carlo Simulation and Coast FI Analysis",
         "2026-01-02", "Personal Finance",
         ["Next.js", "React", "TypeScript", "FIRE", "Financial Independence", "Monte Carlo",
          "Recharts", "JavaScript", "Personal Finance"], "draft"),
    Post("trading-sentiment-analysis-platform",
         "Building a Trading Sentiment Analysis Platform with NLP and Real-time Data",
         "2026-01-02", "AI/ML",
         ["Python", "React", "TypeScript", "FastAPI", "NLP", "VADER", "PostgreSQL", "Redis", "AWS",
          "Docker", "GitHub Actions", "Terraform"], "draft")
  ]

  /** Whether a post is visible: drafts are shown, or its status is `'published'`. */
  predicate Visible(p: Post, showDrafts: bool) {
    showDrafts || p.status == "published"
  }

  /** The test `getBlogPosts` filters with. */
  function VisibleTest(showDrafts: bool): Post -> bool {
    (p: Post) => Visible(p, showDrafts)
  }

  /** The filter of `getBlogPosts` over a post list: the visible posts, in order, each
      as often as in `posts`. */
  function VisiblePosts(posts: seq<Post>, showDrafts: bool): (r: seq<Post>)
    ensures showDrafts ==> r == posts
    ensures IsSubsequence(r, posts)
    ensures forall i :: 0 <= i < |posts| ==> (posts[i] in r <==> Visible(posts[i], showDrafts))
    ensures forall i :: 0 <= i < |r| ==> r[i] in posts && Visible(r[i], showDrafts)
    ensures forall p: Post :: multiset(r)[p] == if Visible(p, showDrafts) then multiset(posts)[p] else 0
  {
    var r := Filter(posts, VisibleTest(showDrafts));
    FilterCounts(posts, VisibleTest(showDrafts));
    if showDrafts then FilterKeepsAll(posts, VisibleTest(showDrafts)); r else r
  }

  /** `getBlogPosts()`: the visible posts of `ALL_POSTS`. */
  function GetBlogPosts(showDrafts: bool): (r: seq<Post>)
    ensures showDrafts ==> r == ALL_POSTS
    ensures IsSubsequence(r, ALL_POSTS)
    ensures forall i :: 0 <= i < |r| ==> Visible(r[i], showDrafts)
  {
    VisiblePosts(ALL_POSTS, showDrafts)
  }

  /** `getAllBlogPosts()`: every post whatever its status; every visible list is drawn from it. */
  function GetAllBlogPosts(): (r: seq<Post>)
    ensures forall showDrafts: bool :: IsSubsequence(GetBlogPosts(showDrafts), r)
    ensures forall i :: 0 <= i < |ALL_POSTS| ==> ALL_POSTS[i] in r
  {
    ALL_POSTS
  }

  /** The test `getBlogPost` finds with. */
  function SlugTest(slug: string): Post -> bool {
    (p: Post) => p.slug == slug
  }

  /** A visible post with that slug. */
  function VisibleSlugTest(slug: string, showDrafts: bool): Post -> bool {
    (p: Post) => p.slug == slug && Visible(p, showDrafts)
  }

  /** The lookup of `getBlogPost` over a post list: the first visible post with that slug,
      or `undefined`. */
  function FindPost(posts: seq<Post>, slug: string, showDrafts: bool): (r: Option<Post>)
    ensures r.None? <==> forall i :: 0 <= i < |posts| && posts[i].slug == slug ==>
                                     !Visible(posts[i], showDrafts)
    ensures r.Some? ==> exists i :: 0 <= i < |posts| && posts[i] == r.value &&
                          r.value.slug == slug && Visible(r.value, showDrafts) &&
                          forall j :: 0 <= j < i ==> !(posts[j].slug == slug && Visible(posts[j], showDrafts))
  {
    FindInFilter(posts, VisibleTest(showDrafts), SlugTest(slug), VisibleSlugTest(slug, showDrafts));
    Find(VisiblePosts(posts, showDrafts), SlugTest(slug))
  }

  /** `getBlogPost(slug)`: a visible post of `ALL_POSTS` with that slug, or `undefined`. */
  function GetBlogPost(slug: string, showDrafts: bool): (r: Option<Post>)
    ensures r.Some? ==> r.value.slug == slug && Visible(r.value, showDrafts)
  {
    FindPost(ALL_POSTS, slug, showDrafts)
  }

  /** The slugs of `ALL_POSTS` are pairwise distinct. */
  lemma SlugsDistinct()
    ensures forall i, j :: 0 <= i < j < |ALL_POSTS| ==> ALL_POSTS[i].slug != ALL_POSTS[j].slug
  {
    var s := seq(|ALL_POSTS|, i requires 0 <= i < |ALL_POSTS| => ALL_POSTS[i].slug[0]);
    assert s == "apgft";
  }

  /** With drafts shown, looking a post up by its own slug finds exactly that post. */
  lemma {:induction false} LookupFindsPost(p: Post)
    requires p in ALL_POSTS
    ensures GetBlogPost(p.slug, true) == Some(p)
  {
    SlugsDistinct();
    FindUnique(ALL_POSTS, SlugTest(p.slug), p);
  }

  /** Every post is a draft, so with drafts hidden nothing is listed and every lookup fails. */
  lemma {:induction false} DraftsHidden(slug: string)
    ensures GetBlogPosts(false) == []
    ensures GetBlogPost(slug, false) == None
  {
    FilterKeepsNone(ALL_POSTS, VisibleTest(false));
  }

  /** What `getBlogPostContent(slug)` resolves to: fixed markup, or the rendering of a
      known markdown module (the rendering itself is not modelled). */
  datatype PostContent = Markup(html: string) | Rendered(path: string)

  const NOT_FOUND := "<p>Post not found</p>"
  const LOAD_ERROR := "<p>Error loading post content</p>"

  /** The module path a slug names. */
  function PostPath(slug: string): string {
    "/src/content/blog/" + slug + ".md"
  }

  /** `getBlogPostContent(slug)`, given the set of known module paths and whether loading
      or rendering the module throws. */
  function GetBlogPostContent(slug: string, modules: set<string>, loadFails: bool): (r: PostContent)
    ensures PostPath(slug) !in modules ==> r == Markup(NOT_FOUND)
    ensures PostPath(slug) in modules ==> r == if loadFails then Markup(LOAD_ERROR) else Rendered(PostPath(slug))
  {
    var path := PostPath(slug);
    if path !in modules then Markup(NOT_FOUND)
    else if loadFails then Markup(LOAD_ERROR)
    else Rendered(path)
  }

  /** The slug can be read back from its module path: between the directory prefix and the
      `.md` suffix. */
  lemma SlugOfPath(slug: string)
    ensures |PostPath(slug)| == |slug| + 21
    ensures PostPath(slug)[18..|PostPath(slug)| - 3] == slug
  {
    var path := PostPath(slug);
    assert path == ("/src/content/blog/" + slug) + ".md";
    assert path[..|path| - 3] == "/src/content/blog/" + slug;
  }

  /** Distinct slugs name distinct modules, so a slug never loads another post's markdown. */
  lemma PostPathInjective(a: string, b: string)
    requires PostPath(a) == PostPath(b)
    ensures a == b
  {
    SlugOfPath(a);
    SlugOfPath(b);
  }

  /** Rendered content is always the requested slug's own module, and two slugs never
      render the same module. */
  lemma RenderedIsOwnModule(a: string, b: string, modules: set<string>, fa: bool, fb: bool)
    ensures GetBlogPostContent(a, modules, fa).Rendered? ==>
              GetBlogPostContent(a, modules, fa).path in modules &&
              GetBlogPostContent(a, modules, fa).path[18..|GetBlogPostContent(a, modules, fa).path| - 3] == a
    ensures a != b && GetBlogPostContent(a, modules, fa).Rendered? && GetBlogPostContent(b, modules, fb).Rendered? ==>
              GetBlogPostContent(a, modules, fa).path != GetBlogPostContent(b, modules, fb).path
  {
    SlugOfPath(a);
    if PostPath(a) == PostPath(b) {
      PostPathInjective(a, b);
    }
  }
}
