/** The `{ type, value }` filter that the router passes to the blog and project lists,
    and the rule by which a list keeps an item under it. */
module ContentFilter {
  import opened Wrappers
  import opened JsText

  /** A filter; `None` is JavaScript's `null`. */
  datatype Filter = Filter(kind: Option<string>, value: Option<string>)

  /** `{ type: null, value: null }`. */
  const NoFilter := Filter(None, None)

  /** `filter.type && filter.value`: the filter applies, and its indicator is shown. */
  predicate IsSet(f: Filter) {
    Truthy(f.kind) && Truthy(f.value)
  }

  /** Whether an item with this category and these tags passes a set filter: type
      `category` compares the category (case-sensitively), type `tag` looks the value
      up among the tags, and any other type lets every item through. */
  predicate Keeps(f: Filter, category: string, tags: seq<string>) {
    if f.kind == Some("category") then f.value == Some(category)
    else if f.kind == Some("tag") then f.value.Some? && f.value.value in tags
    else true
  }
}
