/** The infinite-scroll social feed: pages of five generated posts loaded one
    at a time behind a `hasMore`/`loading` guard, the single-choice reaction
    toggle on each post, and the reaction summary over the whole feed. */
module SocialFeed {
  import opened Seqs
  import opened Text
  import opened Reactions

  datatype Post = Post(
    id: string,
    author: string,
    content: string,
    timestamp: string,
    reactions: Counts,
    userReaction: Option<Kind>)

  /** What `Math.random` picks for one generated post: the user number, the
      two sentences, the hour count and the six reaction counts. */
  datatype Mock = Mock(userNumber: nat, natureText: string, eventText: string, hoursAgo: nat, reactions: Counts)

  /** Posts per page, the default `count` of the generator. */
  const PageSize: nat := 5

  /** The page at which a load clears `hasMore`. */
  const LastPage: nat := 5

  /** The id `${pageNum}-${i}` of the `i`-th post of a page. */
  function FeedId(pageNum: nat, i: nat): string {
    NatToString(pageNum) + "-" + NatToString(i)
  }

  /** Two feed ids are equal only when both numbers are. */
  lemma FeedIdInjective(a: nat, b: nat, c: nat, d: nat)
    requires FeedId(a, b) == FeedId(c, d)
    ensures a == c && b == d
  {
    var x, y := NatToString(a), NatToString(c);
    var s := FeedId(a, b);
    DashAfterDigits(x, NatToString(b), y, NatToString(d));
    assert x == s[..|x|] == y;
    assert NatToString(b) == s[|x| + 1..] == NatToString(d);
    NatToStringInjective(a, c);
    NatToStringInjective(b, d);
  }

  /** A digit string followed by a dash: the dash ends the number. */
  lemma DashAfterDigits(x: string, u: string, y: string, v: string)
    requires forall i :: 0 <= i < |x| ==> '0' <= x[i] <= '9'
    requires forall i :: 0 <= i < |y| ==> '0' <= y[i] <= '9'
    requires x + "-" + u == y + "-" + v
    ensures |x| == |y|
  {
    var s := x + "-" + u;
    assert s[|x|] == '-' && s[|y|] == '-';
    assert forall i :: 0 <= i < |x| ==> s[i] == x[i];
    assert forall i :: 0 <= i < |y| ==> s[i] == y[i];
  }

  /** Counts that no random draw could make negative. */
  predicate NonNegative(c: Counts) {
    c.like >= 0 && c.love >= 0 && c.laugh >= 0 && c.wow >= 0 && c.sad >= 0 && c.angry >= 0
  }

  /** `generateMockPosts(pageNum)`: one post per draw, numbered within the
      page, with the drawn fields and no reaction of the user. */
  function GenerateMockPosts(pageNum: nat, mocks: seq<Mock>): (r: seq<Post>)
    ensures |r| == |mocks|
    ensures forall i :: 0 <= i < |r| ==> r[i].id == FeedId(pageNum, i) && r[i].userReaction == None
    ensures forall i :: 0 <= i < |r| ==> r[i].reactions == mocks[i].reactions
    ensures forall i :: 0 <= i < |r| ==>
      r[i].content == mocks[i].natureText + " " + mocks[i].eventText
  {
    seq(|mocks|, i requires 0 <= i < |mocks| =>
      var m := mocks[i];
      Post(FeedId(pageNum, i), "User " + NatToString(m.userNumber), m.natureText + " " + m.eventText,
           NatToString(m.hoursAgo) + " hours ago", m.reactions, None))
  }

  function StateOf(p: Post): Reacted {
    Reacted(p.reactions, p.userReaction)
  }

  /** `handleReaction` on the feed: the post whose id matches follows the
      reaction rule; every other post, and every other field, stays as it was. */
  function ReactOn(posts: seq<Post>, postId: string, k: Kind): (r: seq<Post>)
    ensures |r| == |posts|
    ensures forall i :: 0 <= i < |posts| && posts[i].id != postId ==> r[i] == posts[i]
    ensures forall i :: 0 <= i < |posts| && posts[i].id == postId ==>
      && StateOf(r[i]) == React(StateOf(posts[i]), k)
      && r[i] == posts[i].(reactions := r[i].reactions, userReaction := r[i].userReaction)
  {
    seq(|posts|, i requires 0 <= i < |posts| =>
      if posts[i].id == postId then
        var s := React(StateOf(posts[i]), k);
        posts[i].(reactions := s.counts, userReaction := s.held)
      else posts[i])
  }

  /** The state the feed keeps between handlers: as many full pages as loads
      done, the `i`-th post numbered by its page and its place in it, sound
      reaction states, `hasMore` exactly until the fifth load is done, and a
      load in flight only while there is more. */
  ghost predicate FeedInvariant(posts: seq<Post>, page: nat, hasMore: bool, loading: bool) {
    && 1 <= page <= LastPage + 1
    && (hasMore <==> page <= LastPage)
    && (loading ==> hasMore)
    && |posts| == PageSize * (page - 1)
    && (forall i :: 0 <= i < |posts| ==> posts[i].id == FeedId(i / PageSize + 1, i % PageSize))
    && (forall i :: 0 <= i < |posts| ==> Sound(StateOf(posts[i])))
  }

  lemma DivMod(q: nat, m: nat)
    requires m < PageSize
    ensures (PageSize * q + m) / PageSize == q && (PageSize * q + m) % PageSize == m
  {
  }

  /** Finishing the load of page `page` appends that page's five posts and
      moves to the next page; `hasMore` clears when the page was the fifth. */
  lemma FinishLoadKeeps(posts: seq<Post>, page: nat, mocks: seq<Mock>)
    requires FeedInvariant(posts, page, true, true)
    requires |mocks| == PageSize
    requires forall i :: 0 <= i < |mocks| ==> NonNegative(mocks[i].reactions)
    ensures FeedInvariant(posts + GenerateMockPosts(page, mocks), page + 1, page < LastPage, false)
  {
    var added := GenerateMockPosts(page, mocks);
    var r := posts + added;
    forall i | 0 <= i < |r| ensures r[i].id == FeedId(i / PageSize + 1, i % PageSize) {
      if i >= |posts| {
        var m := i - |posts|;
        DivMod(page - 1, m);
        assert i == PageSize * (page - 1) + m;
        assert r[i] == added[m];
      }
    }
    forall i | 0 <= i < |r| ensures Sound(StateOf(r[i])) {
      if i >= |posts| {
        assert r[i] == added[i - |posts|];
      }
    }
  }

  /** No two posts of a feed in that state share an id, since each page is
      loaded once. */
  lemma FeedIdsDistinct(posts: seq<Post>, page: nat, hasMore: bool, loading: bool)
    requires FeedInvariant(posts, page, hasMore, loading)
    ensures forall i, j :: 0 <= i < j < |posts| ==> posts[i].id != posts[j].id
  {
    forall i, j | 0 <= i < j < |posts| ensures posts[i].id != posts[j].id {
      if posts[i].id == posts[j].id {
        FeedIdInjective(i / PageSize + 1, i % PageSize, j / PageSize + 1, j % PageSize);
      }
    }
  }

  /** The feed never holds more than five pages, 25 posts. */
  lemma FeedBounded(posts: seq<Post>, page: nat, hasMore: bool, loading: bool)
    requires FeedInvariant(posts, page, hasMore, loading)
    ensures |posts| <= PageSize * LastPage
  {
  }

  /** A reaction keeps the feed in its state: ids are untouched and reaction
      states stay sound. */
  lemma ReactOnKeeps(posts: seq<Post>, page: nat, hasMore: bool, loading: bool, postId: string, k: Kind)
    requires FeedInvariant(posts, page, hasMore, loading)
    ensures FeedInvariant(ReactOn(posts, postId, k), page, hasMore, loading)
  {
    var r := ReactOn(posts, postId, k);
    forall i | 0 <= i < |posts| ensures Sound(StateOf(r[i])) {
      if posts[i].id == postId { ReactSound(StateOf(posts[i]), k); }
    }
  }

  /** The sum of one kind's count over the posts. */
  function KindTotal(posts: seq<Post>, k: Kind): int {
    SumBy(posts, (p: Post) => p.reactions.Get(k))
  }

  lemma KindTotalSnoc(posts: seq<Post>, i: nat, k: Kind)
    requires i < |posts|
    ensures KindTotal(posts[..i + 1], k) == KindTotal(posts[..i], k) + posts[i].reactions.Get(k)
  {
    var f := (p: Post) => p.reactions.Get(k);
    assert posts[..i + 1] == posts[..i] + [posts[i]];
    SumByAppend(posts[..i], [posts[i]], f);
    assert SumBy([posts[i]], f) == f(posts[i]) + SumBy([posts[i]][1..], f);
  }

  /** `aggregatedReactions`: the reduce that adds every post's counts into an
      accumulator record that starts empty. With no posts there is no entry
      at all; otherwise each kind maps to its sum over the feed. */
  method AggregatedReactions(posts: seq<Post>) returns (acc: map<Kind, int>)
    ensures posts == [] ==> acc == map[]
    ensures posts != [] ==> forall k :: k in acc && acc[k] == KindTotal(posts, k)
  {
    acc := map[];
    var i := 0;
    while i < |posts|
      invariant 0 <= i <= |posts|
      invariant i == 0 ==> acc == map[]
      invariant i > 0 ==> forall k :: k in acc && acc[k] == KindTotal(posts[..i], k)
    {
      var j := 0;
      while j < |AllKinds|
        invariant 0 <= j <= |AllKinds|
        invariant forall k :: k in AllKinds[..j] ==> k in acc && acc[k] == KindTotal(posts[..i + 1], k)
        invariant forall k :: k !in AllKinds[..j] ==>
          if i == 0 then k !in acc else k in acc && acc[k] == KindTotal(posts[..i], k)
      {
        var k := AllKinds[j];
        KindTotalSnoc(posts, i, k);
        var prev := if k in acc then acc[k] else 0;
        acc := acc[k := prev + posts[i].reactions.Get(k)];
        assert AllKinds[..j + 1] == AllKinds[..j] + [k];
        j := j + 1;
      }
      forall k ensures k in AllKinds[..j] {
        AllKindsComplete(k);
        assert AllKinds[..j] == AllKinds;
      }
      i := i + 1;
    }
    assert posts[..i] == posts;
  }

  /** The widget's state fields. */
  class Store {
    var posts: seq<Post>
    var loading: bool
    var page: nat
    var hasMore: bool

    ghost predicate Valid()
      reads this
    {
      FeedInvariant(posts, page, hasMore, loading)
    }

    /** The first render together with the mount effect, which starts the
        load of page 1. */
    constructor ()
      ensures Valid()
      ensures posts == [] && page == 1 && hasMore && loading
    {
      posts := [];
      loading := true;
      page := 1;
      hasMore := true;
    }

    /** The observer callback: a load starts only when the sentinel is in view
        and there is more to load and no load is in flight. */
    method ObserverFired(isIntersecting: bool) returns (started: bool)
      requires Valid()
      modifies this`loading
      ensures Valid()
      ensures started <==> isIntersecting && hasMore && !old(loading)
      ensures loading == (old(loading) || started)
    {
      started := isIntersecting && hasMore && !loading;
      if started {
        loading := true;
      }
    }

    /** The end of `loadMorePosts` after its delay, with the random draws for
        the page's posts. */
    method FinishLoad(mocks: seq<Mock>)
      requires Valid() && loading
      requires |mocks| == PageSize
      requires forall i :: 0 <= i < |mocks| ==> NonNegative(mocks[i].reactions)
      modifies this`posts, this`page, this`hasMore, this`loading
      ensures Valid()
      ensures posts == old(posts) + GenerateMockPosts(old(page), mocks)
      ensures page == old(page) + 1
      ensures hasMore <==> old(page) < LastPage
      ensures !loading
    {
      FinishLoadKeeps(posts, page, mocks);
      posts := posts + GenerateMockPosts(page, mocks);
      if page >= LastPage {
        hasMore := false;
      }
      page := page + 1;
      loading := false;
    }

    method HandleReaction(postId: string, k: Kind)
      requires Valid()
      modifies this`posts
      ensures Valid()
      ensures posts == ReactOn(old(posts), postId, k)
    {
      ReactOnKeeps(posts, page, hasMore, loading, postId, k);
      posts := ReactOn(posts, postId, k);
    }
  }
}
