/** The comment handlers of the test-case demo page. Each builds a new list of
    comments from the old one; none changes a comment in place. */
module CommentsDemo {
  import opened Js
  import opened Comments

  /** The comment the current user writes at time `now`: `Date.now()` is its id,
      it has no likes and no replies. */
  function Fresh(author: User, content: string, now: int): Comment {
    Comment(NumId(now), author, content, "Just now", 0, None)
  }

  // ---------------------------------------------------------------------------
  // Adding

  /** `handleAddComment`: the new comment goes first, the old list follows. */
  function AddComment(comments: seq<Comment>, author: User, content: string, now: int): (r: seq<Comment>)
    ensures |r| == |comments| + 1 && r[1..] == comments
    ensures r[0].id == NumId(now) && r[0].author == author && r[0].content == content
    ensures r[0].likes == 0 && r[0].replies.None?
  {
    [Fresh(author, content, now)] + comments
  }

  // ---------------------------------------------------------------------------
  // Replying

  /** The comment with `reply` appended to its replies; nothing else differs. */
  function WithReply(c: Comment, reply: Comment): (r: Comment)
    ensures RepliesOf(r) == RepliesOf(c) + [reply]
    ensures r.(replies := c.replies) == c
  {
    c.(replies := Some(RepliesOf(c) + [reply]))
  }

  /** `handleReplyComment`: every top-level comment with the id gets the reply at
      the end of its replies; the others stay as they are. */
  function ReplyComment(comments: seq<Comment>, commentId: Id, author: User, content: string, now: int): (r: seq<Comment>)
    ensures |r| == |comments|
    ensures forall i :: 0 <= i < |r| ==>
      r[i] == if comments[i].id == commentId then WithReply(comments[i], Fresh(author, content, now)) else comments[i]
    decreases |comments|
  {
    if comments == [] then []
    else
      var c := comments[0];
      [if c.id == commentId then WithReply(c, Fresh(author, content, now)) else c]
        + ReplyComment(comments[1..], commentId, author, content, now)
  }

  /** The number of top-level comments with the id. */
  function Matches(comments: seq<Comment>, id: Id): nat
    decreases |comments|
  {
    if comments == [] then 0 else (if comments[0].id == id then 1 else 0) + Matches(comments[1..], id)
  }

  /** The number of replies over all top-level comments. */
  function ReplyCount(comments: seq<Comment>): nat
    decreases |comments|
  {
    if comments == [] then 0 else |RepliesOf(comments[0])| + ReplyCount(comments[1..])
  }

  /** A reply adds one reply per matching top-level comment, so exactly one when
      the id is that of one top-level comment. */
  lemma {:induction false} ReplyAddsMatches(comments: seq<Comment>, commentId: Id, author: User, content: string, now: int)
    ensures ReplyCount(ReplyComment(comments, commentId, author, content, now)) == ReplyCount(comments) + Matches(comments, commentId)
    decreases |comments|
  {
    if comments != [] {
      var r := ReplyComment(comments, commentId, author, content, now);
      ReplyAddsMatches(comments[1..], commentId, author, content, now);
      assert r[1..] == ReplyComment(comments[1..], commentId, author, content, now);
    }
  }

  /** A reply to an id no top-level comment has leaves the list as it was. */
  lemma {:induction false} ReplyNoMatch(comments: seq<Comment>, commentId: Id, author: User, content: string, now: int)
    requires Matches(comments, commentId) == 0
    ensures ReplyComment(comments, commentId, author, content, now) == comments
    decreases |comments|
  {
    if comments != [] {
      ReplyNoMatch(comments[1..], commentId, author, content, now);
      assert comments == [comments[0]] + comments[1..];
    }
  }

  // ---------------------------------------------------------------------------
  // Liking

  /** A reply with the id gets one more like. */
  function LikeReply(reply: Comment, id: Id): (r: Comment)
    ensures r.(likes := reply.likes) == reply
    ensures r.likes == reply.likes + (if reply.id == id then 1 else 0)
  {
    if reply.id == id then reply.(likes := reply.likes + 1) else reply
  }

  /** `comment.replies.map(...)` of the like handler. */
  function LikeReplies(replies: seq<Comment>, id: Id): (r: seq<Comment>)
    ensures |r| == |replies|
    ensures forall i :: 0 <= i < |r| ==> r[i] == LikeReply(replies[i], id)
    decreases |replies|
  {
    if replies == [] then [] else [LikeReply(replies[0], id)] + LikeReplies(replies[1..], id)
  }

  /** A top-level comment with the id gets one more like and its replies are not
      looked at; otherwise its replies with the id each get one more like. */
  function LikeOne(c: Comment, id: Id): (r: Comment)
    ensures r.(likes := c.likes, replies := c.replies) == c
    ensures c.id == id ==> r.likes == c.likes + 1 && r.replies == c.replies
    ensures c.id != id ==> r.likes == c.likes && RepliesOf(r) == LikeReplies(RepliesOf(c), id)
    ensures c.replies.None? <==> r.replies.None?
  {
    if c.id == id then c.(likes := c.likes + 1)
    else if c.replies.Some? then c.(replies := Some(LikeReplies(c.replies.value, id)))
    else c
  }

  /** `handleLikeComment`. */
  function LikeComment(comments: seq<Comment>, id: Id): (r: seq<Comment>)
    ensures |r| == |comments|
    ensures forall i :: 0 <= i < |r| ==> r[i] == LikeOne(comments[i], id)
    decreases |comments|
  {
    if comments == [] then [] else [LikeOne(comments[0], id)] + LikeComment(comments[1..], id)
  }

  function ReplyLikes(replies: seq<Comment>): int
    decreases |replies|
  {
    if replies == [] then 0 else replies[0].likes + ReplyLikes(replies[1..])
  }

  /** The likes of every top-level comment and every reply. */
  function TotalLikes(comments: seq<Comment>): int
    decreases |comments|
  {
    if comments == [] then 0 else comments[0].likes + ReplyLikes(RepliesOf(comments[0])) + TotalLikes(comments[1..])
  }

  function IdCount(replies: seq<Comment>, id: Id): nat
    decreases |replies|
  {
    if replies == [] then 0 else (if replies[0].id == id then 1 else 0) + IdCount(replies[1..], id)
  }

  /** How many top-level comments and replies carry the id. */
  function Occurrences(comments: seq<Comment>, id: Id): nat
    decreases |comments|
  {
    if comments == [] then 0
    else (if comments[0].id == id then 1 else 0) + IdCount(RepliesOf(comments[0]), id) + Occurrences(comments[1..], id)
  }

  /** No comment with the id has a reply with the same id (which the handler
      would skip). Unique ids everywhere imply it. */
  ghost predicate NoShadowedReply(comments: seq<Comment>, id: Id) {
    forall i :: 0 <= i < |comments| && comments[i].id == id ==> IdCount(RepliesOf(comments[i]), id) == 0
  }

  lemma {:induction false} LikeRepliesAddsMatches(replies: seq<Comment>, id: Id)
    ensures ReplyLikes(LikeReplies(replies, id)) == ReplyLikes(replies) + IdCount(replies, id)
    decreases |replies|
  {
    if replies != [] {
      LikeRepliesAddsMatches(replies[1..], id);
      assert LikeReplies(replies, id)[1..] == LikeReplies(replies[1..], id);
    }
  }

  /** One like is added for each comment and reply with the id: with unique ids,
      exactly one when the id exists and none otherwise. */
  lemma {:induction false} LikeAddsOccurrences(comments: seq<Comment>, id: Id)
    requires NoShadowedReply(comments, id)
    ensures TotalLikes(LikeComment(comments, id)) == TotalLikes(comments) + Occurrences(comments, id)
    decreases |comments|
  {
    if comments != [] {
      var c := comments[0];
      assert NoShadowedReply(comments[1..], id) by {
        forall i | 0 <= i < |comments[1..]| && comments[1..][i].id == id
          ensures IdCount(RepliesOf(comments[1..][i]), id) == 0
        {
          assert comments[1..][i] == comments[i + 1];
        }
      }
      LikeAddsOccurrences(comments[1..], id);
      assert LikeComment(comments, id)[1..] == LikeComment(comments[1..], id);
      if c.id != id {
        LikeRepliesAddsMatches(RepliesOf(c), id);
      } else {
        assert IdCount(RepliesOf(comments[0]), id) == 0;
      }
    }
  }

  lemma {:induction false} LikeRepliesNoMatch(replies: seq<Comment>, id: Id)
    requires IdCount(replies, id) == 0
    ensures LikeReplies(replies, id) == replies
    decreases |replies|
  {
    if replies != [] {
      LikeRepliesNoMatch(replies[1..], id);
      assert replies == [replies[0]] + replies[1..];
    }
  }

  /** A like for an id that no comment or reply has changes nothing. */
  lemma {:induction false} LikeNoMatch(comments: seq<Comment>, id: Id)
    requires Occurrences(comments, id) == 0
    ensures LikeComment(comments, id) == comments
    decreases |comments|
  {
    if comments != [] {
      var c := comments[0];
      LikeNoMatch(comments[1..], id);
      LikeRepliesNoMatch(RepliesOf(c), id);
      assert LikeOne(c, id) == c;
      assert comments == [c] + comments[1..];
    }
  }
}
