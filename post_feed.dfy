/** The post feed: a like counter per post, a floating emoji marker added on
    every like under a numbered id and removed again by id, and the trending
    and per-post marker views. */
module PostFeed {
  import opened Seqs
  import opened Text

  datatype Post = Post(
    id: string,
    author: string,
    content: string,
    timestamp: string,
    likes: int,
    comments: int,
    shares: int,
    trending: bool)

  /** A floating marker; its horizontal position is left out. */
  datatype Marker = Marker(id: string, emoji: string, y: int, postId: string)

  /** The emojis a like can float. */
  const Emojis: seq<string> := ["❤️", "👍", "🔥", "🎉", "👏"]

  /** The posts shown at mount; a missing `trending` flag is false. */
  const SeedPosts: seq<Post> :=
    [ Post("1", "Alex Johnson", "Just made it to my dream internship.", "2 hours ago", 124, 18, 5, true),
      Post("2", "Jamie Smith", "Beautiful sunset at the beach " + "today. Nature is truly amazing!",
           "4 hours ago", 89, 7, 2, true),
      Post("3", "Taylor Brown",
           "Just finished reading this amazing " + "book. Highly recommend it to " + "everyone interested in AI and its " + "future implications.",
           "6 hours ago", 45, 12, 3, false) ]

  /** The marker id `emoji-n`. */
  function MarkerId(n: nat): string {
    "emoji-" + NatToString(n)
  }

  /** The posts after a like of `postId`: each matching post's likes go up by
      exactly one (there is no unlike), every other post stays as it was. */
  function LikePost(posts: seq<Post>, postId: string): (r: seq<Post>)
    ensures |r| == |posts|
    ensures forall i :: 0 <= i < |posts| ==>
      r[i] == if posts[i].id == postId then posts[i].(likes := posts[i].likes + 1) else posts[i]
  {
    seq(|posts|, i requires 0 <= i < |posts| =>
      if posts[i].id == postId then posts[i].(likes := posts[i].likes + 1) else posts[i])
  }

  /** The filter condition of an expiry: the marker has another id. */
  function OtherMarker(id: string): Marker -> bool {
    (m: Marker) => m.id != id
  }

  /** The timer callback of a marker: every marker with that id goes, the
      others stay. */
  function ExpireMarker(markers: seq<Marker>, id: string): (r: seq<Marker>)
    ensures forall m :: m in r <==> m in markers && m.id != id
    ensures |r| <= |markers|
    ensures Selects(r, markers, OtherMarker(id))
  {
    FilterSelects(OtherMarker(id), markers);
    Filter(OtherMarker(id), markers)
  }

  /** When no other marker shares its id, an expiry removes exactly that
      marker and leaves the markers before and after it in their order. */
  lemma ExpireRemovesOne(before: seq<Marker>, m: Marker, after: seq<Marker>)
    requires forall i :: 0 <= i < |before| ==> before[i].id != m.id
    requires forall i :: 0 <= i < |after| ==> after[i].id != m.id
    ensures ExpireMarker(before + [m] + after, m.id) == before + after
  {
    var p := OtherMarker(m.id);
    assert forall i :: 0 <= i < |before| ==> p(before[i]);
    assert forall i :: 0 <= i < |after| ==> p(after[i]);
    FilterDropsOne(p, before, m, after);
  }

  function MarkerKey(m: Marker): string {
    m.id
  }

  /** `n` is a number from 1 below `next`, the marker counter. */
  ghost predicate IssuedBefore(id: string, next: nat) {
    exists k :: 1 <= k < next && id == MarkerId(k)
  }

  /** Every marker carries an id the counter has already issued, and no two
      share one. */
  ghost predicate MarkersValid(markers: seq<Marker>, next: nat) {
    && next >= 1
    && (forall i :: 0 <= i < |markers| ==> IssuedBefore(markers[i].id, next))
    && DistinctKeys(markers, MarkerKey)
  }

  /** The marker a like adds: the next counter value as id, at the bottom. */
  function NewMarker(next: nat, emoji: string, postId: string): Marker {
    Marker(MarkerId(next), emoji, 0, postId)
  }

  /** The counter's next value is not yet issued; once it moves on, it is. */
  lemma NextMarkerFresh(id: string, next: nat)
    ensures IssuedBefore(id, next) ==> id != MarkerId(next) && IssuedBefore(id, next + 1)
    ensures IssuedBefore(MarkerId(next), next + 1) == (next >= 1)
  {
    if IssuedBefore(id, next) {
      var k :| 1 <= k < next && id == MarkerId(k);
      if id == MarkerId(next) {
        PrefixedNumbersDistinct("emoji-", k, next);
      }
      assert 1 <= k < next + 1;
    }
    if IssuedBefore(MarkerId(next), next + 1) {
      var k :| 1 <= k < next + 1 && MarkerId(next) == MarkerId(k);
      if k != next {
        PrefixedNumbersDistinct("emoji-", k, next);
      }
    }
  }

  /** A like keeps the markers valid: the new id was never issued before. */
  lemma AddMarkerKeeps(markers: seq<Marker>, next: nat, emoji: string, postId: string)
    requires MarkersValid(markers, next)
    ensures MarkersValid(markers + [NewMarker(next, emoji, postId)], next + 1)
  {
    var m := NewMarker(next, emoji, postId);
    var r := markers + [m];
    forall i | 0 <= i < |markers| ensures r[i] == markers[i] && r[i].id != m.id && IssuedBefore(r[i].id, next + 1) {
      NextMarkerFresh(markers[i].id, next);
    }
    NextMarkerFresh(m.id, next);
  }

  /** An expiry keeps the markers valid. */
  lemma ExpireKeeps(markers: seq<Marker>, next: nat, id: string)
    requires MarkersValid(markers, next)
    ensures MarkersValid(ExpireMarker(markers, id), next)
  {
    FilterKeepsDistinct(OtherMarker(id), markers, MarkerKey);
    var r := ExpireMarker(markers, id);
    forall i | 0 <= i < |r| ensures IssuedBefore(r[i].id, next) {
      assert r[i] in markers;
    }
  }

  // ---------------------------------------------------------------------------
  // Views

  function IsTrending(): Post -> bool {
    (p: Post) => p.trending
  }

  /** The "Trending Posts" grid: exactly the trending posts, in feed order. */
  function TrendingPosts(posts: seq<Post>): (r: seq<Post>)
    ensures forall p :: p in r <==> p in posts && p.trending
    ensures forall p :: multiset(r)[p] == if p.trending then multiset(posts)[p] else 0
    ensures Selects(r, posts, IsTrending())
  {
    FilterCounts(IsTrending(), posts);
    FilterSelects(IsTrending(), posts);
    Filter(IsTrending(), posts)
  }

  function OnPost(postId: string): Marker -> bool {
    (m: Marker) => m.postId == postId
  }

  /** The markers floating over one post: exactly those of that post. */
  function PostMarkers(markers: seq<Marker>, postId: string): (r: seq<Marker>)
    ensures forall m :: m in r <==> m in markers && m.postId == postId
    ensures Selects(r, markers, OnPost(postId))
  {
    FilterSelects(OnPost(postId), markers);
    Filter(OnPost(postId), markers)
  }

  /** A like's marker appears at the end of that post's markers and of no
      other post's. */
  lemma NewMarkerShown(markers: seq<Marker>, m: Marker, postId: string)
    ensures PostMarkers(markers + [m], postId) ==
      PostMarkers(markers, postId) + (if m.postId == postId then [m] else [])
  {
    FilterAppend(OnPost(postId), markers, [m]);
    assert Filter(OnPost(postId), [m]) == (if m.postId == postId then [m] else []) by {
      assert [m][1..] == [];
    }
  }

  // ---------------------------------------------------------------------------
  // The widget

  /** The widget's state fields. */
  class Store {
    var posts: seq<Post>
    var emojiAnimations: seq<Marker>
    var nextEmojiId: nat

    ghost predicate Valid()
      reads this
    {
      MarkersValid(emojiAnimations, nextEmojiId)
    }

    constructor ()
      ensures Valid()
      ensures posts == SeedPosts && emojiAnimations == [] && nextEmojiId == 1
    {
      posts := SeedPosts;
      emojiAnimations := [];
      nextEmojiId := 1;
    }

    /** `handleLike` with the emoji `Math.random` picked: one more like, one
        more marker with the counter's id, and the counter moves on. The id
        is returned for the expiry callback. */
    method HandleLike(postId: string, emoji: string) returns (markerId: string)
      requires Valid() && emoji in Emojis
      modifies this`posts, this`emojiAnimations, this`nextEmojiId
      ensures Valid()
      ensures posts == LikePost(old(posts), postId)
      ensures markerId == MarkerId(old(nextEmojiId))
      ensures emojiAnimations == old(emojiAnimations) + [NewMarker(old(nextEmojiId), emoji, postId)]
      ensures nextEmojiId == old(nextEmojiId) + 1
    {
      posts := LikePost(posts, postId);
      var m := NewMarker(nextEmojiId, emoji, postId);
      AddMarkerKeeps(emojiAnimations, nextEmojiId, emoji, postId);
      nextEmojiId := nextEmojiId + 1;
      emojiAnimations := emojiAnimations + [m];
      markerId := m.id;
    }

    /** The two-second timer of marker `id` firing. */
    method ExpireAnimation(id: string)
      requires Valid()
      modifies this`emojiAnimations
      ensures Valid()
      ensures emojiAnimations == ExpireMarker(old(emojiAnimations), id)
    {
      ExpireKeeps(emojiAnimations, nextEmojiId, id);
      emojiAnimations := ExpireMarker(emojiAnimations, id);
    }
  }
}
