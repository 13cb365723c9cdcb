/** The comment feed: a like toggle on every comment and reply, new comments
    put in front with the next number as id, and replies appended under a
    comment with ids `commentId-n`. */
module CommentFeed {
  import opened Seqs
  import opened Text

  datatype Reply = Reply(
    id: string,
    author: string,
    content: string,
    timestamp: string,
    likes: int,
    liked: bool)

  datatype Comment = Comment(
    id: string,
    author: string,
    content: string,
    timestamp: string,
    likes: int,
    liked: bool,
    replies: seq<Reply>)

  /** The seed comments shown at mount. */
  const SeedComments: seq<Comment> :=
    [ Comment("1", "Alex Johnson", "This new event is amazing! I've " + "been waiting for something like " + "this.",
        "2 hours ago", 12, false,
        [Reply("1-1", "Sam Taylor", "I agree! It's been a game-changer.", "1 hour ago", 3, false)]),
      Comment("2", "Jamie Smith", "Nice event yeah.", "3 hours ago", 5, false, []) ]

  // ---------------------------------------------------------------------------
  // The like toggle

  /** The like counter of a comment or reply and whether the user liked it. */
  datatype LikeState = LikeState(likes: int, liked: bool)

  /** One click on the heart: the flag flips, and the counter goes down by
      one when it was set and up by one when it was not. */
  function Toggle(l: LikeState): (r: LikeState)
    ensures r.liked == !l.liked
    ensures r.likes == if l.liked then l.likes - 1 else l.likes + 1
  {
    LikeState(if l.liked then l.likes - 1 else l.likes + 1, !l.liked)
  }

  /** Two clicks restore the state exactly. */
  lemma ToggleTwice(l: LikeState)
    ensures Toggle(Toggle(l)) == l
  {
  }

  /** A like of the user is counted: the counter is at least one while the
      flag is set, and never negative. */
  predicate LikeSound(l: LikeState) {
    l.likes >= (if l.liked then 1 else 0)
  }

  lemma ToggleSound(l: LikeState)
    requires LikeSound(l)
    ensures LikeSound(Toggle(l))
  {
  }

  function CommentLike(c: Comment): LikeState {
    LikeState(c.likes, c.liked)
  }

  function ReplyLike(r: Reply): LikeState {
    LikeState(r.likes, r.liked)
  }

  /** The reply id argument is set and non-empty, so the like is meant for a
      reply; an empty id is falsy and likes the comment itself. */
  predicate TargetsReply(replyId: Option<string>) {
    replyId.Some? && replyId.value != ""
  }

  /** The replies after a like of `replyId`: the matching replies toggle,
      every other reply stays as it was. */
  function LikeReplies(rs: seq<Reply>, replyId: string): (r: seq<Reply>)
    ensures |r| == |rs|
    ensures forall j :: 0 <= j < |rs| && rs[j].id != replyId ==> r[j] == rs[j]
    ensures forall j :: 0 <= j < |rs| && rs[j].id == replyId ==>
      && ReplyLike(r[j]) == Toggle(ReplyLike(rs[j]))
      && r[j] == rs[j].(likes := r[j].likes, liked := r[j].liked)
  {
    seq(|rs|, j requires 0 <= j < |rs| =>
      if rs[j].id == replyId then
        var l := Toggle(ReplyLike(rs[j]));
        rs[j].(likes := l.likes, liked := l.liked)
      else rs[j])
  }

  /** `handleLike(commentId, replyId)`: with a reply id only the matching
      replies under the matching comment toggle and the comment's own counter
      stays; without one the matching comment toggles and its replies stay;
      every other comment stays as it was. */
  function LikeIn(cs: seq<Comment>, commentId: string, replyId: Option<string>): (r: seq<Comment>)
    ensures |r| == |cs|
    ensures forall i :: 0 <= i < |cs| && cs[i].id != commentId ==> r[i] == cs[i]
    ensures TargetsReply(replyId) ==> forall i :: 0 <= i < |cs| && cs[i].id == commentId ==>
      r[i] == cs[i].(replies := LikeReplies(cs[i].replies, replyId.value))
    ensures !TargetsReply(replyId) ==> forall i :: 0 <= i < |cs| && cs[i].id == commentId ==>
      && CommentLike(r[i]) == Toggle(CommentLike(cs[i]))
      && r[i] == cs[i].(likes := r[i].likes, liked := r[i].liked)
  {
    seq(|cs|, i requires 0 <= i < |cs| =>
      var c := cs[i];
      if c.id != commentId then c
      else if TargetsReply(replyId) then c.(replies := LikeReplies(c.replies, replyId.value))
      else
        var l := Toggle(CommentLike(c));
        c.(likes := l.likes, liked := l.liked))
  }

  /** Liking the same comment or reply twice restores the feed exactly. */
  lemma LikeTwice(cs: seq<Comment>, commentId: string, replyId: Option<string>)
    ensures LikeIn(LikeIn(cs, commentId, replyId), commentId, replyId) == cs
  {
    var once := LikeIn(cs, commentId, replyId);
    var twice := LikeIn(once, commentId, replyId);
    forall i | 0 <= i < |cs| ensures twice[i] == cs[i] {
      if cs[i].id == commentId && TargetsReply(replyId) {
        var rs := cs[i].replies;
        var back := LikeReplies(LikeReplies(rs, replyId.value), replyId.value);
        forall j | 0 <= j < |rs| ensures back[j] == rs[j] {
          ToggleTwice(ReplyLike(rs[j]));
        }
        assert back == rs;
      } else if cs[i].id == commentId {
        ToggleTwice(CommentLike(cs[i]));
      }
    }
  }

  // ---------------------------------------------------------------------------
  // The shape the feed keeps

  /** The `j`-th reply of comment `c` has the id `c.id-(j+1)`. */
  ghost predicate RepliesNumbered(c: Comment) {
    forall j :: 0 <= j < |c.replies| ==> c.replies[j].id == c.id + "-" + NatToString(j + 1)
  }

  /** Every like of the user is counted, on comments and on replies. */
  ghost predicate LikesCounted(cs: seq<Comment>) {
    && (forall i :: 0 <= i < |cs| ==> LikeSound(CommentLike(cs[i])))
    && (forall i, j :: 0 <= i < |cs| && 0 <= j < |cs[i].replies| ==> LikeSound(ReplyLike(cs[i].replies[j])))
  }

  /** `id` is the decimal rendering of a number from 1 to `n`. */
  ghost predicate NumberUpTo(id: string, n: nat) {
    exists k :: 1 <= k <= n && id == NatToString(k)
  }

  /** Comment ids are distinct numbers from 1 to the length of the feed. */
  ghost predicate IdsNumbered(cs: seq<Comment>) {
    && (forall i :: 0 <= i < |cs| ==> NumberUpTo(cs[i].id, |cs|))
    && (forall i, j :: 0 <= i < j < |cs| ==> cs[i].id != cs[j].id)
  }

  /** Every like is counted, comment ids are distinct numbers, and replies
      are numbered within their comment. */
  ghost predicate Wellformed(cs: seq<Comment>) {
    && LikesCounted(cs)
    && IdsNumbered(cs)
    && (forall i :: 0 <= i < |cs| ==> RepliesNumbered(cs[i]))
  }

  lemma SeedWellformed()
    ensures Wellformed(SeedComments)
  {
    var cs := SeedComments;
    assert |cs| == 2 && |cs[0].replies| == 1 && cs[1].replies == [];
    assert NatToString(1) == "1" && NatToString(2) == "2";
    assert LikesCounted(cs);
    assert IdsNumbered(cs) by {
      assert NumberUpTo(cs[0].id, 2) && NumberUpTo(cs[1].id, 2);
    }
    assert RepliesNumbered(cs[0]) by {
      assert cs[0].replies[0].id == cs[0].id + "-" + NatToString(1);
    }
    assert RepliesNumbered(cs[1]);
  }

  /** Reply ids under one comment of a well-formed feed are distinct. */
  lemma ReplyIdsDistinct(cs: seq<Comment>, i: nat)
    requires Wellformed(cs) && i < |cs|
    ensures forall j, k :: 0 <= j < k < |cs[i].replies| ==> cs[i].replies[j].id != cs[i].replies[k].id
  {
    var c := cs[i];
    forall j, k | 0 <= j < k < |c.replies| ensures c.replies[j].id != c.replies[k].id {
      PrefixedNumbersDistinct(c.id + "-", j + 1, k + 1);
    }
  }

  /** A like keeps the feed well-formed: ids are untouched and the toggle
      keeps every like counted. */
  lemma LikeKeeps(cs: seq<Comment>, commentId: string, replyId: Option<string>)
    requires Wellformed(cs)
    ensures Wellformed(LikeIn(cs, commentId, replyId))
  {
    var r := LikeIn(cs, commentId, replyId);
    forall i | 0 <= i < |cs| ensures LikeSound(CommentLike(r[i])) && RepliesNumbered(r[i]) {
      if cs[i].id == commentId && !TargetsReply(replyId) {
        ToggleSound(CommentLike(cs[i]));
      }
    }
    forall i, j | 0 <= i < |cs| && 0 <= j < |r[i].replies| ensures LikeSound(ReplyLike(r[i].replies[j])) {
      if cs[i].id == commentId && TargetsReply(replyId) && cs[i].replies[j].id == replyId.value {
        ToggleSound(ReplyLike(cs[i].replies[j]));
      }
    }
    assert forall i :: 0 <= i < |cs| ==> r[i].id == cs[i].id;
  }

  // ---------------------------------------------------------------------------
  // Adding comments and replies

  /** The comment `handleAddComment` builds: the next number as id, the text
      as typed (not trimmed), no likes and no replies. */
  function NewComment(cs: seq<Comment>, text: string): Comment {
    Comment(NatToString(|cs| + 1), "You", text, "Just now", 0, false, [])
  }

  /** The feed after adding `text`: unchanged when the text is blank,
      otherwise the new comment in front of the old ones in their order. */
  function AddComment(cs: seq<Comment>, text: string): (r: seq<Comment>)
    ensures Trim(text) == [] ==> r == cs
    ensures Trim(text) != [] ==> |r| == |cs| + 1 && r[0] == NewComment(cs, text) && r[1..] == cs
  {
    if Trim(text) == [] then cs else [NewComment(cs, text)] + cs
  }

  /** The new comment's id is distinct from every other, so adding keeps the
      feed well-formed. */
  lemma AddCommentKeeps(cs: seq<Comment>, text: string)
    requires Wellformed(cs)
    ensures Wellformed(AddComment(cs, text))
  {
    if Trim(text) != [] {
      NextNumber(|cs|);
      PrependKeeps(NewComment(cs, text), cs);
    }
  }

  lemma PrependKeeps(c: Comment, cs: seq<Comment>)
    requires Wellformed(cs)
    requires !NumberUpTo(c.id, |cs|) && NumberUpTo(c.id, |cs| + 1)
    requires c.likes == 0 && !c.liked && c.replies == []
    ensures Wellformed([c] + cs)
  {
    var r := [c] + cs;
    assert forall i :: 1 <= i < |r| ==> r[i] == cs[i - 1];
    PrependIds(c, cs);
    assert LikesCounted(r) by {
      forall i, j | 0 <= i < |r| && 0 <= j < |r[i].replies| ensures LikeSound(ReplyLike(r[i].replies[j])) {
        assert r[i] == cs[i - 1];
      }
    }
  }

  /** An id that is not yet taken keeps the ids distinct numbers. */
  lemma PrependIds(c: Comment, cs: seq<Comment>)
    requires IdsNumbered(cs)
    requires !NumberUpTo(c.id, |cs|) && NumberUpTo(c.id, |cs| + 1)
    ensures IdsNumbered([c] + cs)
  {
    var r := [c] + cs;
    forall i | 1 <= i < |r| ensures r[i] == cs[i - 1] && r[i].id != c.id && NumberUpTo(r[i].id, |r|) {
      NumberUpToGrows(cs[i - 1].id, |cs|);
    }
    forall i, j | 0 <= i < j < |r| ensures r[i].id != r[j].id {
      if i > 0 {
        assert r[i].id == cs[i - 1].id && r[j].id == cs[j - 1].id;
      }
    }
  }

  lemma NumberUpToGrows(id: string, n: nat)
    requires NumberUpTo(id, n)
    ensures NumberUpTo(id, n + 1)
  {
    var k :| 1 <= k <= n && id == NatToString(k);
    assert 1 <= k <= n + 1;
  }

  /** The next number is a number up to `n + 1` and none up to `n`. */
  lemma NextNumber(n: nat)
    ensures !NumberUpTo(NatToString(n + 1), n) && NumberUpTo(NatToString(n + 1), n + 1)
  {
    if NumberUpTo(NatToString(n + 1), n) {
      var k :| 1 <= k <= n && NatToString(n + 1) == NatToString(k);
      NatToStringInjective(k, n + 1);
    }
  }

  /** The reply `handleAddReply` appends under comment `c`: the next number
      within the comment, the text as typed, no likes. */
  function NewReply(c: Comment, commentId: string, text: string): Reply {
    Reply(commentId + "-" + NatToString(|c.replies| + 1), "You", text, "Just now", 0, false)
  }

  /** The feed after replying `text` to `commentId` (the text is not blank):
      every matching comment gets one reply at its end, every other comment
      stays as it was. */
  function AddReply(cs: seq<Comment>, commentId: string, text: string): (r: seq<Comment>)
    ensures |r| == |cs|
    ensures forall i :: 0 <= i < |cs| && cs[i].id != commentId ==> r[i] == cs[i]
    ensures forall i :: 0 <= i < |cs| && cs[i].id == commentId ==>
      r[i] == cs[i].(replies := cs[i].replies + [NewReply(cs[i], commentId, text)])
  {
    seq(|cs|, i requires 0 <= i < |cs| =>
      var c := cs[i];
      if c.id == commentId then c.(replies := c.replies + [NewReply(c, commentId, text)]) else c)
  }

  /** A reply takes the number after the last one under its comment, so
      replies stay numbered and the feed stays well-formed. */
  lemma AddReplyKeeps(cs: seq<Comment>, commentId: string, text: string)
    requires Wellformed(cs)
    ensures Wellformed(AddReply(cs, commentId, text))
  {
    var r := AddReply(cs, commentId, text);
    forall i | 0 <= i < |cs| ensures RepliesNumbered(r[i]) {
      if cs[i].id == commentId {
        forall j | 0 <= j < |r[i].replies| ensures r[i].replies[j].id == r[i].id + "-" + NatToString(j + 1) {
          if j < |cs[i].replies| {
            assert r[i].replies[j] == cs[i].replies[j];
          }
        }
      }
    }
    forall i, j | 0 <= i < |cs| && 0 <= j < |r[i].replies| ensures LikeSound(ReplyLike(r[i].replies[j])) {
      if cs[i].id == commentId && j < |cs[i].replies| {
        assert r[i].replies[j] == cs[i].replies[j];
      }
    }
    assert forall i :: 0 <= i < |cs| ==> r[i].id == cs[i].id;
  }

  // ---------------------------------------------------------------------------
  // The widget

  /** The widget's state fields. */
  class Store {
    var comments: seq<Comment>
    var newComment: string
    var replyingTo: Option<string>
    var replyContent: string

    ghost predicate Valid()
      reads this
    {
      Wellformed(comments)
    }

    constructor ()
      ensures Valid()
      ensures comments == SeedComments && newComment == "" && replyingTo == None && replyContent == ""
    {
      comments := SeedComments;
      newComment := "";
      replyingTo := None;
      replyContent := "";
      SeedWellformed();
    }

    method HandleLike(commentId: string, replyId: Option<string>)
      requires Valid()
      modifies this`comments
      ensures Valid()
      ensures comments == LikeIn(old(comments), commentId, replyId)
    {
      LikeKeeps(comments, commentId, replyId);
      comments := LikeIn(comments, commentId, replyId);
    }

    /** The comment box's `onChange`. */
    method SetNewComment(text: string)
      modifies this`newComment
      ensures newComment == text
    {
      newComment := text;
    }

    /** A blank comment is ignored; otherwise it goes in front and the box
        clears. */
    method HandleAddComment()
      requires Valid()
      modifies this`comments, this`newComment
      ensures Valid()
      ensures comments == AddComment(old(comments), old(newComment))
      ensures newComment == if Trim(old(newComment)) == [] then old(newComment) else ""
    {
      AddCommentKeeps(comments, newComment);
      if Trim(newComment) != [] {
        comments := AddComment(comments, newComment);
        newComment := "";
      }
    }

    /** The "Reply" button: opens the reply box under the comment, or closes
        it when it is already open there. */
    method ToggleReplying(commentId: string)
      modifies this`replyingTo
      ensures replyingTo == if old(replyingTo) == Some(commentId) then None else Some(commentId)
    {
      replyingTo := if replyingTo == Some(commentId) then None else Some(commentId);
    }

    /** The reply box's `onChange`. */
    method SetReplyContent(text: string)
      modifies this`replyContent
      ensures replyContent == text
    {
      replyContent := text;
    }

    /** A blank reply changes nothing; otherwise it is appended under the
        comment and the reply box closes and clears. */
    method HandleAddReply(commentId: string)
      requires Valid()
      modifies this`comments, this`replyingTo, this`replyContent
      ensures Valid()
      ensures Trim(old(replyContent)) == [] ==>
        comments == old(comments) && replyingTo == old(replyingTo) && replyContent == old(replyContent)
      ensures Trim(old(replyContent)) != [] ==>
        && comments == AddReply(old(comments), commentId, old(replyContent))
        && replyingTo == None && replyContent == ""
    {
      if Trim(replyContent) != [] {
        AddReplyKeeps(comments, commentId, replyContent);
        comments := AddReply(comments, commentId, replyContent);
        replyingTo := None;
        replyContent := "";
      }
    }
  }
}
