/** The forum thread: posts with tags and reaction counts, a tag filter and
    a "popular" ordering. */
module ForumThreadViewer {
  import opened Seqs
  import opened Reactions
  import Tags

  datatype Post = Post(
    id: string,
    author: string,
    content: string,
    timestamp: string,
    reactions: Counts,
    userReaction: Option<Kind>,
    tags: seq<string>)

  datatype SortBy = Newest | Oldest | Popular

  /** The seed thread shown at mount. */
  function SeedPosts(): seq<Post> {
    [ Post("1", "Alex Johnson", "Just discovered a great new " + "featured event in the latest update!",
           "2 hours ago", Counts(12, 5, 0, 2, 0, 0), None, ["feature", "update", "event"]),
      Post("2", "Jamie Smith",
           "Yes! The new featured event is " + "amazing. I especially like how they " + "visualize user engagement over time.",
           "1 hour ago", Counts(8, 3, 1, 0, 0, 0), None, ["analytics", "visualization"]),
      Post("3", "Taylor Brown", "I'm soooo excited",
           "45 minutes ago", Counts(2, 0, 0, 0, 3, 1), None, ["excited"]) ]
  }

  /** The post's reaction state as the toggle rule sees it. */
  function StateOf(p: Post): Reacted {
    Reacted(p.reactions, p.userReaction)
  }

  /** `handleReaction` on the list: the post whose id matches follows the
      reaction rule; every other post, and every other field, stays as it was. */
  function ReactOn(posts: seq<Post>, postId: string, k: Kind): (r: seq<Post>)
    ensures |r| == |posts|
    ensures forall i :: 0 <= i < |posts| && posts[i].id != postId ==> r[i] == posts[i]
    ensures forall i :: 0 <= i < |posts| && posts[i].id == postId ==>
      && StateOf(r[i]) == React(StateOf(posts[i]), k)
      && r[i] == posts[i].(reactions := r[i].reactions, userReaction := r[i].userReaction)
  {
    seq(|posts|, i requires 0 <= i < |posts| =>
      if posts[i].id == postId then
        var s := React(StateOf(posts[i]), k);
        posts[i].(reactions := s.counts, userReaction := s.held)
      else posts[i])
  }

  /** Every post's reaction state is sound: a held kind counts at least one. */
  ghost predicate AllSound(posts: seq<Post>) {
    forall i :: 0 <= i < |posts| ==> Sound(StateOf(posts[i]))
  }

  lemma SeedSound()
    ensures AllSound(SeedPosts())
  {
  }

  /** A reaction keeps every post's state sound, so no count goes negative. */
  lemma ReactOnSound(posts: seq<Post>, postId: string, k: Kind)
    requires AllSound(posts)
    ensures AllSound(ReactOn(posts, postId, k))
  {
    var r := ReactOn(posts, postId, k);
    forall i | 0 <= i < |posts| ensures Sound(StateOf(r[i])) {
      if posts[i].id == postId { ReactSound(StateOf(posts[i]), k); }
    }
  }

  /** `allTags`: every tag of the thread once, in string order. */
  function AllTags(posts: seq<Post>): (r: seq<string>)
    ensures Tags.StrictlySorted(r)
    ensures forall t :: t in r <==> exists i :: 0 <= i < |posts| && t in posts[i].tags
  {
    Tags.AllTagsOf(posts, (x: Post) => x.tags)
  }


  /** The filter condition of a tag button. */
  function HasTag(tag: string): Post -> bool {
    (p: Post) => tag in p.tags
  }

  /** `filteredPosts`: the posts carrying the active tag, or all of them. */
  function FilteredPosts(posts: seq<Post>, activeFilter: Option<string>): (r: seq<Post>)
    ensures activeFilter == None ==> r == posts
    ensures activeFilter.Some? ==>
      forall p :: p in r <==> p in posts && activeFilter.value in p.tags
    ensures activeFilter.Some? ==>
      forall p :: multiset(r)[p] == if activeFilter.value in p.tags then multiset(posts)[p] else 0
    ensures activeFilter.Some? ==> Selects(r, posts, HasTag(activeFilter.value))
  {
    match activeFilter
    case None => posts
    case Some(tag) =>
      FilterCounts(HasTag(tag), posts);
      FilterSelects(HasTag(tag), posts);
      Filter(HasTag(tag), posts)
  }

  /** The "popular" branch of `sortedPosts`: the filtered posts reordered by
      total reactions, most first. */
  function PopularPosts(posts: seq<Post>): (r: seq<Post>)
    ensures multiset(r) == multiset(posts)
    ensures forall i, j :: 0 <= i < j < |r| ==> r[i].reactions.Total() >= r[j].reactions.Total()
  {
    SortByKeyDesc(posts, TotalReactions())
  }

  /** The key of the "popular" order. */
  function TotalReactions(): Post -> int {
    (p: Post) => p.reactions.Total()
  }

  /** Posts with the same total keep their order, as the stable
      `Array.prototype.sort` keeps them. */
  lemma PopularPostsStable(posts: seq<Post>, total: int)
    ensures Filter(KeyIs(TotalReactions(), total), PopularPosts(posts))
         == Filter(KeyIs(TotalReactions(), total), posts)
  {
    SortByKeyDescStable(posts, TotalReactions(), total);
  }

  /** The widget's state: the posts, the active tag and the sort choice. */
  class Store {
    var posts: seq<Post>
    var activeFilter: Option<string>
    var sortBy: SortBy

    ghost predicate Valid()
      reads this
    {
      AllSound(posts)
    }

    constructor ()
      ensures Valid()
      ensures posts == SeedPosts() && activeFilter == None && sortBy == Newest
    {
      posts := SeedPosts();
      activeFilter := None;
      sortBy := Newest;
      SeedSound();
    }

    method HandleReaction(postId: string, k: Kind)
      requires Valid()
      modifies this`posts
      ensures Valid()
      ensures posts == ReactOn(old(posts), postId, k)
    {
      ReactOnSound(posts, postId, k);
      posts := ReactOn(posts, postId, k);
    }

    /** A click on a tag button, or on "All" (`None`). */
    method SetFilter(tag: Option<string>)
      requires Valid()
      modifies this`activeFilter
      ensures Valid() && activeFilter == tag
    {
      activeFilter := tag;
    }

    /** The sort selector. */
    method SetSortBy(order: SortBy)
      requires Valid()
      modifies this`sortBy
      ensures Valid() && sortBy == order
    {
      sortBy := order;
    }
  }
}
