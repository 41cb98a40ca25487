/** The blog list page: which posts it shows under the router's filter, and when it
    shows the filter indicator and the no-results block. */
module BlogPage {
  import opened Wrappers
  import Seqs
  import opened ContentFilter
  import opened BlogData

  /** `getFilteredPosts()`: all posts when the filter is not set, otherwise the
      posts the filter keeps, in their original order. */
  function FilteredPosts(posts: seq<Post>, f: Filter): (r: seq<Post>)
    ensures !IsSet(f) ==> r == posts
    ensures Seqs.IsSubsequence(r, posts)
    ensures forall i :: 0 <= i < |posts| ==>
              (posts[i] in r <==> !IsSet(f) || Keeps(f, posts[i].category, posts[i].tags))
    ensures forall i :: 0 <= i < |r| ==> r[i] in posts
    ensures forall p: Post :: multiset(r)[p] ==
              if !IsSet(f) || Keeps(f, p.category, p.tags) then multiset(posts)[p] else 0
  {
    if !IsSet(f) then Seqs.SubsequenceReflexive(posts); posts
    else
      var keep := (p: Post) => Keeps(f, p.category, p.tags);
      Seqs.FilterCounts(posts, keep);
      Seqs.Filter(posts, keep)
  }

  /** The filter indicator is shown exactly when the filter is set. */
  predicate ShowsFilterIndicator(f: Filter) {
    IsSet(f)
  }

  /** The no-results block: nothing passes the filter although there are posts. */
  function ShowsNoResults(posts: seq<Post>, f: Filter): (b: bool)
    ensures b <==> |posts| > 0 && IsSet(f) &&
                   forall i :: 0 <= i < |posts| ==> !Keeps(f, posts[i].category, posts[i].tags)
  {
    |FilteredPosts(posts, f)| == 0 && |posts| > 0
  }

  /** A `category` filter keeps exactly the posts of that category. */
  lemma CategoryFilter(posts: seq<Post>, value: string, p: Post)
    requires value != "" && p in posts
    ensures p in FilteredPosts(posts, Filter(Some("category"), Some(value))) <==> p.category == value
  {
  }

  /** A `tag` filter keeps exactly the posts carrying that tag. */
  lemma TagFilter(posts: seq<Post>, value: string, p: Post)
    requires value != "" && p in posts
    ensures p in FilteredPosts(posts, Filter(Some("tag"), Some(value))) <==> value in p.tags
  {
  }

  /** A set filter of any other type keeps every post, in order. */
  lemma {:induction false} OtherKindKeepsAll(posts: seq<Post>, f: Filter)
    requires IsSet(f) && f.kind != Some("category") && f.kind != Some("tag")
    ensures FilteredPosts(posts, f) == posts
  {
    Seqs.FilterKeepsAll(posts, (p: Post) => Keeps(f, p.category, p.tags));
  }

  /** Clicking a card's category, or one of its tags, filters to a list that still holds the card. */
  lemma OwnFilterKeepsCard(posts: seq<Post>, p: Post, tag: string)
    requires p in posts && p.category != "" && tag in p.tags && tag != ""
    ensures p in FilteredPosts(posts, Filter(Some("category"), Some(p.category)))
    ensures p in FilteredPosts(posts, Filter(Some("tag"), Some(tag)))
  {
  }

  /** The no-results block appears only under a `category` or `tag` filter, so it always
      comes with the filter indicator. */
  lemma {:induction false} NoResultsNeedsFilter(posts: seq<Post>, f: Filter)
    requires ShowsNoResults(posts, f)
    ensures ShowsFilterIndicator(f)
    ensures f.kind == Some("category") || f.kind == Some("tag")
  {
    if IsSet(f) && f.kind != Some("category") && f.kind != Some("tag") {
      OtherKindKeepsAll(posts, f);
    }
  }
}
