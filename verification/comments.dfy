/** The comment thread the comment section shows: top-level comments, each with
    an optional list of replies. */
module Comments {
  import opened Js

  datatype User = User(id: Id, name: string, avatar: Option<string>)

  datatype Comment = Comment(
    id: Id,
    author: User,
    content: string,
    timestamp: string,
    likes: int,
    replies: Option<seq<Comment>>)

  /** `comment.replies || []`. */
  function RepliesOf(c: Comment): (r: seq<Comment>)
    ensures c.replies.None? ==> r == []
    ensures c.replies.Some? ==> r == c.replies.value
  {
    if c.replies.Some? then c.replies.value else []
  }
}
