/** The application shell's own copy of the route, which only drives the sidebar's
    highlighting: it stores the whole fragment, unsplit. */
module AppShell {
  import Seqs
  import opened HashRouter

  /** The route ids of the seven sidebar items, in sidebar order. */
  const SIDEBAR_ROUTES: seq<string> := ["home", "experience", "projects", "certifications", "skills", "blog", "contact"]

  /** The sidebar items drawn as active for `route`: those whose id equals it exactly. */
  function ActiveItems(route: string): (items: seq<string>)
    ensures forall i :: 0 <= i < |items| ==> items[i] == route
    ensures route in SIDEBAR_ROUTES <==> items != []
    ensures Seqs.IsSubsequence(items, SIDEBAR_ROUTES)
  {
    Seqs.Filter(SIDEBAR_ROUTES, (id: string) => id == route)
  }

  class App {
    var route: string
    /** `window.location.hash` without its `#`. */
    var hash: string

    /** The shell as first rendered, before its effect reads the fragment. */
    constructor (initialHash: string)
      ensures route == "home" && hash == initialHash
    {
      route := "home";
      hash := initialHash;
    }

    /** A write to `window.location.hash` made elsewhere, such as by the router. */
    method SetHash(h: string)
      modifies this`hash
      ensures hash == h && route == old(route)
    {
      hash := h;
    }

    /** `handleHashChange`: the route becomes the fragment, or `home` when it is empty. */
    method HandleHashChange()
      modifies this`route
      ensures route == Fragment(hash) && hash == old(hash)
    {
      var h := if hash == "" then "home" else hash;
      route := h;
    }

    /** `handleNavigate(r)`: the fragment and the route both become `r`. */
    method HandleNavigate(r: string)
      modifies this
      ensures hash == r && route == r
    {
      hash := r;
      route := r;
    }
  }

  /** A non-empty fragment is kept verbatim, slashes and all, where the router splits it. */
  lemma FragmentKeptVerbatim(hash: string)
    requires hash != ""
    ensures Fragment(hash) == hash
  {
  }

  /** After `handleNavigate(r)` the `hashchange` event re-derives the same route when `r`
      is not empty; an empty `r` becomes `home`. */
  lemma NavigateThenHashChange(r: string)
    ensures r != "" ==> Fragment(r) == r
    ensures r == "" ==> Fragment(r) == "home"
  {
  }

  /** The sidebar ids are distinct, so at most one item is ever active. */
  lemma {:induction false} AtMostOneActive(route: string)
    ensures |ActiveItems(route)| <= 1
  {
    FilterLength(SIDEBAR_ROUTES, route);
  }

  /** The number of entries of `ids` equal to `route`. */
  function Matches(ids: seq<string>, route: string): nat {
    if ids == [] then 0 else (if ids[0] == route then 1 else 0) + Matches(ids[1..], route)
  }

  lemma {:induction false} FilterLength(ids: seq<string>, route: string)
    ensures |Seqs.Filter(ids, (id: string) => id == route)| == Matches(ids, route)
  {
    if ids != [] {
      FilterLength(ids[1..], route);
    }
  }

  /** No sidebar item is active on a fragment with a slash, such as a blog post, a blog
      filter or a projects filter. */
  lemma NoneActiveOnPaths(route: string)
    requires '/' in route
    ensures ActiveItems(route) == []
  {
    assert '/' !in "home" && '/' !in "experience" && '/' !in "projects";
    assert '/' !in "certifications" && '/' !in "skills" && '/' !in "blog" && '/' !in "contact";
    assert route !in SIDEBAR_ROUTES;
  }
}
