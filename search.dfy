/** The home page search: a post is shown when the lower-cased query occurs in
    its lower-cased title, in one of its lower-cased tags, or in its lower-cased
    content. */
module Search {
  import opened Wrappers
  import opened Text
  import opened Seqs
  import opened Store

  /** `tags.some(tag => tag.toLowerCase().includes(query))`. */
  function AnyTagMatches(tags: seq<string>, query: string): (r: bool)
    ensures r <==> exists i :: 0 <= i < |tags| && Contains(ToLower(tags[i]), query)
    decreases |tags|
  {
    if tags == [] then false
    else if Contains(ToLower(tags[0]), query) then true
    else
      assert forall i :: 1 <= i < |tags| ==> tags[i] == tags[1..][i - 1];
      AnyTagMatches(tags[1..], query)
  }

  /** The filter's test for one post against the already lower-cased query; a
      post without tags can match only through its title or its content. */
  predicate PostMatches(p: Post, query: string)
  {
    Contains(ToLower(p.title), query)
    || (p.tags.Some? && AnyTagMatches(p.tags.value, query))
    || Contains(ToLower(p.content), query)
  }

  /** `filteredPosts`: the posts that match, in their original order. */
  function FilteredPosts(posts: seq<Post>, searchQuery: string): (r: seq<Post>)
    ensures forall p :: p in r <==> p in posts && PostMatches(p, ToLower(searchQuery))
    ensures IsSubsequence(r, posts)
    ensures forall p :: multiset(r)[p] == if PostMatches(p, ToLower(searchQuery)) then multiset(posts)[p] else 0
  {
    var query := ToLower(searchQuery);
    FilterCounts(posts, (p: Post) => PostMatches(p, query));
    Filter(posts, (p: Post) => PostMatches(p, query))
  }

  /** An empty search shows every post. */
  lemma EmptyQueryKeepsAll(posts: seq<Post>)
    ensures FilteredPosts(posts, "") == posts
  {
    forall i | 0 <= i < |posts| ensures PostMatches(posts[i], "") {
      ContainsEmpty(ToLower(posts[i].title));
    }
    FilterKeepsAll(posts, (p: Post) => PostMatches(p, ToLower("")));
  }

  /** The search ignores the case of the query: a query and its lower-cased form
      show the same posts. */
  lemma QueryCaseIgnored(posts: seq<Post>, searchQuery: string)
    ensures FilteredPosts(posts, ToLower(searchQuery)) == FilteredPosts(posts, searchQuery)
  {
    ToLowerIdempotent(searchQuery);
  }

  /** Typing more of the query never brings a post back: every post shown for
      the longer query is shown for the shorter one. */
  lemma LongerQueryNarrows(posts: seq<Post>, q: string, more: string)
    ensures forall p :: p in FilteredPosts(posts, q + more) ==> p in FilteredPosts(posts, q)
  {
    ToLowerAppend(q, more);
    var lq, lm := ToLower(q), ToLower(more);
    forall p | p in FilteredPosts(posts, q + more) ensures PostMatches(p, lq) {
      assert PostMatches(p, lq + lm);
      if Contains(ToLower(p.title), lq + lm) {
        ContainsPrefix(ToLower(p.title), lq, lm);
      } else if p.tags.Some? && AnyTagMatches(p.tags.value, lq + lm) {
        var i :| 0 <= i < |p.tags.value| && Contains(ToLower(p.tags.value[i]), lq + lm);
        ContainsPrefix(ToLower(p.tags.value[i]), lq, lm);
      } else {
        ContainsPrefix(ToLower(p.content), lq, lm);
      }
    }
  }

  /** A tag equal to the query, in any case, is enough for a post to be shown. */
  lemma TagHitShows(posts: seq<Post>, i: nat, j: nat, searchQuery: string)
    requires i < |posts| && posts[i].tags.Some? && j < |posts[i].tags.value|
    requires ToLower(posts[i].tags.value[j]) == ToLower(searchQuery)
    ensures posts[i] in FilteredPosts(posts, searchQuery)
  {
    var lq := ToLower(searchQuery);
    assert StartsWith(lq, lq);
    assert Contains(ToLower(posts[i].tags.value[j]), lq);
  }
}
