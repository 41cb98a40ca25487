/** The JavaScript and Python string operations the core relies on: `split` on one
    character (which keeps empty segments), `startsWith`, prefix slicing and
    the truthiness of an optional string. */
module JsText {
  import opened Wrappers

  /** `String.prototype.split(d)` for a one-character separator: the maximal
      separator-free pieces between separators, empty pieces included, so
      `Split("", d) == [""]` and `Split("a/", '/') == ["a", ""]`. */
  function Split(s: string, d: char): (parts: seq<string>)
    ensures |parts| >= 1
    ensures (|parts| >= 2) == (d in s)
    ensures forall i :: 0 <= i < |parts| ==> d !in parts[i]
    decreases |s|
  {
    if s == [] then [[]]
    else
      var rest := Split(s[1..], d);
      if s[0] == d then [[]] + rest
      else [[s[0]] + rest[0]] + rest[1..]
  }

  /** The pieces joined back with the separator (`Array.prototype.join(d)`). */
  function Join(parts: seq<string>, d: char): string
    requires |parts| >= 1
    decreases |parts|
  {
    if |parts| == 1 then parts[0] else parts[0] + [d] + Join(parts[1..], d)
  }

  /** Joining the pieces of a split gives the original string back. */
  lemma {:induction false} JoinSplit(s: string, d: char)
    ensures Join(Split(s, d), d) == s
    decreases |s|
  {
    if s != [] {
      JoinSplit(s[1..], d);
      var rest := Split(s[1..], d);
      if s[0] != d {
        var parts := Split(s, d);
        assert parts[0] == [s[0]] + rest[0];
        if |rest| > 1 {
          assert parts[1..] == rest[1..];
          assert Join(rest, d) == rest[0] + [d] + Join(rest[1..], d);
        }
      }
    }
  }

  /** A piece free of the separator, followed by the separator, splits off as one piece. */
  lemma {:induction false} SplitSegment(a: string, d: char, t: string)
    requires d !in a
    ensures Split(a + [d] + t, d) == [a] + Split(t, d)
    decreases |a|
  {
    if a == [] {
      assert [d] + t == [d] + t;
      assert ([d] + t)[1..] == t;
    } else {
      assert (a + [d] + t)[1..] == a[1..] + [d] + t;
      SplitSegment(a[1..], d, t);
      assert [a[0]] + a[1..] == a;
    }
  }

  /** A separator-free string is a single piece. */
  lemma {:induction false} SplitNone(a: string, d: char)
    requires d !in a
    ensures Split(a, d) == [a]
    decreases |a|
  {
    if a != [] {
      SplitNone(a[1..], d);
      assert [a[0]] + a[1..] == a;
    }
  }

  /** Three separator-free pieces joined by the separator split back into exactly those three. */
  lemma SplitThree(a: string, b: string, c: string, d: char)
    requires d !in a && d !in b && d !in c
    ensures Split(a + [d] + b + [d] + c, d) == [a, b, c]
  {
    assert a + [d] + b + [d] + c == a + [d] + (b + [d] + c);
    SplitSegment(a, d, b + [d] + c);
    SplitSegment(b, d, c);
    SplitNone(c, d);
  }

  /** `String.prototype.startsWith(p)`. */
  predicate StartsWith(s: string, p: string) {
    |p| <= |s| && s[..|p|] == p
  }

  /** Python's `s[:n]` for `n >= 0`: the first `n` characters, or all of `s` when shorter. */
  function Take(s: string, n: nat): (r: string)
    ensures |r| == if |s| < n then |s| else n
    ensures r <= s
  {
    if |s| <= n then s else s[..n]
  }

  /** JavaScript truthiness of a value that is `null` or a string: `null` and `''` are falsy. */
  predicate Truthy(v: Option<string>) {
    v.Some? && v.value != ""
  }
}
