/** The comment section component: author initials, the input guards of its
    three forms, the reply toggle and the owner-only controls. */
module CommentSection {
  import opened Js
  import opened Text
  import opened Comments

  // ---------------------------------------------------------------------------
  // Initials

  /** `s.charAt(0)`: the first character, or the empty string. */
  function CharAt0(s: string): (r: string)
    ensures s != "" ==> r == [s[0]]
    ensures s == "" ==> r == ""
  {
    if s == "" then "" else [s[0]]
  }

  /** `parts.map(part => part.charAt(0))`. */
  function FirstChars(parts: seq<string>): (r: seq<string>)
    ensures |r| == |parts|
    ensures forall i :: 0 <= i < |r| ==> r[i] == CharAt0(parts[i])
    decreases |parts|
  {
    if parts == [] then [] else [CharAt0(parts[0])] + FirstChars(parts[1..])
  }

  /** `getInitials`. */
  function GetInitials(name: string): string {
    Upper(Join(FirstChars(Split(name, ' ')), ""))
  }

  /** The number of non-empty parts. */
  function NonEmptyCount(parts: seq<string>): nat
    decreases |parts|
  {
    if parts == [] then 0 else (if parts[0] != "" then 1 else 0) + NonEmptyCount(parts[1..])
  }

  function TotalLength(parts: seq<string>): nat
    decreases |parts|
  {
    if parts == [] then 0 else |parts[0]| + TotalLength(parts[1..])
  }

  lemma {:induction false} JoinEmptyLength(parts: seq<string>)
    ensures |Join(parts, "")| == TotalLength(parts)
    decreases |parts|
  {
    if |parts| > 1 {
      JoinEmptyLength(parts[1..]);
    } else if |parts| == 1 {
      assert TotalLength(parts[1..]) == 0;
    }
  }

  lemma {:induction false} FirstCharsLength(parts: seq<string>)
    ensures TotalLength(FirstChars(parts)) == NonEmptyCount(parts)
    decreases |parts|
  {
    if parts != [] {
      FirstCharsLength(parts[1..]);
      assert FirstChars(parts)[1..] == FirstChars(parts[1..]);
    }
  }

  /** One initial per non-empty space-separated part of the name, so at most one
      more than the name has spaces. */
  lemma InitialsLength(name: string)
    ensures |GetInitials(name)| == NonEmptyCount(Split(name, ' '))
    ensures |GetInitials(name)| <= multiset(name)[' '] + 1
  {
    var parts := Split(name, ' ');
    JoinEmptyLength(FirstChars(parts));
    FirstCharsLength(parts);
    NonEmptyAtMostAll(parts);
    SplitLength(name, ' ');
  }

  lemma {:induction false} NonEmptyAtMostAll(parts: seq<string>)
    ensures NonEmptyCount(parts) <= |parts|
    decreases |parts|
  {
    if parts != [] {
      NonEmptyAtMostAll(parts[1..]);
    }
  }

  /** Initials never hold a lower-case letter. */
  lemma InitialsUpperCase(name: string)
    ensures forall i :: 0 <= i < |GetInitials(name)| ==> !('a' <= GetInitials(name)[i] <= 'z')
  {
    var j := Join(FirstChars(Split(name, ' ')), "");
    UpperIdempotent(j);
  }

  /** A first and a last name give two initials. */
  lemma InitialsTwoWords(first: string, last: string)
    requires first != "" && last != "" && ' ' !in first && ' ' !in last
    ensures GetInitials(first + " " + last) == [UpperChar(first[0]), UpperChar(last[0])]
  {
    assert first + " " + last == first + [' '] + last;
    SplitAtFirst(first, last, ' ');
    SplitWithoutSeparator(last, ' ');
    assert FirstChars([first, last]) == [[first[0]], [last[0]]];
    assert Join([[first[0]], [last[0]]], "") == [first[0], last[0]];
  }

  lemma InitialsExample(name: string)
    requires name == "Sarah Chen"
    ensures GetInitials(name) == "SC"
  {
    assert name == "Sarah" + " " + "Chen";
    InitialsTwoWords("Sarah", "Chen");
  }

  /** An empty name has no initials. */
  lemma InitialsOfEmpty()
    ensures GetInitials("") == ""
  {
    assert Split("", ' ') == [""];
  }

  // ---------------------------------------------------------------------------
  // The forms and their state

  /** Clicking Reply on a comment: the comment already being replied to closes
      its form, any other comment opens its own. */
  function NextReplyingTo(current: Option<Id>, commentId: Id): (r: Option<Id>)
  {
    if current == Some(commentId) then None else Some(commentId)
  }

  /** The reply form of a comment opens exactly when it was not already open, and a
      second click on the same comment undoes the first when no other form was open. */
  lemma ReplyToggle(current: Option<Id>, commentId: Id)
    ensures NextReplyingTo(current, commentId) == Some(commentId) <==> current != Some(commentId)
    ensures current == None || current == Some(commentId) ==>
      NextReplyingTo(NextReplyingTo(current, commentId), commentId) == current
  {
  }

  /** Edit and Delete appear only for the current user's own comment, and not
      while that comment is being edited. */
  predicate ShowsOwnerControls(comment: Comment, currentUser: User, editingId: Option<Id>) {
    comment.author.id == currentUser.id && editingId != Some(comment.id)
  }

  /** Starting to edit a comment hides its controls and no other comment's. */
  lemma EditingHidesOnlyItsControls(comment: Comment, other: Comment, currentUser: User)
    ensures !ShowsOwnerControls(comment, currentUser, Some(comment.id))
    ensures other.id != comment.id ==>
      (ShowsOwnerControls(other, currentUser, Some(comment.id)) <==> ShowsOwnerControls(other, currentUser, None))
    ensures other.author.id != currentUser.id ==> forall e :: !ShowsOwnerControls(other, currentUser, e)
  {
  }

  class CommentForm {
    var newComment: string
    var replyingTo: Option<Id>
    var replyContent: string
    var editingId: Option<Id>
    var editContent: string

    constructor()
      ensures newComment == "" && replyingTo == None && replyContent == ""
      ensures editingId == None && editContent == ""
    {
      newComment := "";
      replyingTo := None;
      replyContent := "";
      editingId := None;
      editContent := "";
    }

    /** Posts the new comment, untrimmed, when it is not blank and the parent
        handles comments, then clears the input. `hasCallback` says whether the
        parent passed `onAddComment`; the result is the call it receives. */
    method HandleAddComment(hasCallback: bool) returns (call: Option<string>)
      modifies this
      ensures !IsBlank(old(newComment)) && hasCallback ==> call == Some(old(newComment)) && newComment == ""
      ensures IsBlank(old(newComment)) || !hasCallback ==> call.None? && newComment == old(newComment)
      ensures replyingTo == old(replyingTo) && replyContent == old(replyContent)
      ensures editingId == old(editingId) && editContent == old(editContent)
    {
      call := None;
      if !IsBlank(newComment) && hasCallback {
        call := Some(newComment);
        newComment := "";
      }
    }

    /** Sends the reply to `commentId` when it is not blank, then closes the reply
        form and clears its text. */
    method HandleReply(commentId: Id, hasCallback: bool) returns (call: Option<(Id, string)>)
      modifies this
      ensures !IsBlank(old(replyContent)) && hasCallback ==>
        call == Some((commentId, old(replyContent))) && replyingTo == None && replyContent == ""
      ensures IsBlank(old(replyContent)) || !hasCallback ==>
        call.None? && replyingTo == old(replyingTo) && replyContent == old(replyContent)
      ensures newComment == old(newComment) && editingId == old(editingId) && editContent == old(editContent)
    {
      call := None;
      if !IsBlank(replyContent) && hasCallback {
        call := Some((commentId, replyContent));
        replyingTo := None;
        replyContent := "";
      }
    }

    /** Saves the edit of `commentId` when it is not blank, then leaves edit mode
        and clears the edit text. */
    method HandleEdit(commentId: Id, hasCallback: bool) returns (call: Option<(Id, string)>)
      modifies this
      ensures !IsBlank(old(editContent)) && hasCallback ==>
        call == Some((commentId, old(editContent))) && editingId == None && editContent == ""
      ensures IsBlank(old(editContent)) || !hasCallback ==>
        call.None? && editingId == old(editingId) && editContent == old(editContent)
      ensures newComment == old(newComment) && replyingTo == old(replyingTo) && replyContent == old(replyContent)
    {
      call := None;
      if !IsBlank(editContent) && hasCallback {
        call := Some((commentId, editContent));
        editingId := None;
        editContent := "";
      }
    }

    /** Opens the editor on a comment, filled with its current text. */
    method StartEditing(comment: Comment)
      modifies this
      ensures editingId == Some(comment.id) && editContent == comment.content
      ensures newComment == old(newComment) && replyingTo == old(replyingTo) && replyContent == old(replyContent)
    {
      editingId := Some(comment.id);
      editContent := comment.content;
    }

    /** The Reply button of a comment. */
    method ToggleReply(commentId: Id)
      modifies this
      ensures replyingTo == NextReplyingTo(old(replyingTo), commentId)
      ensures newComment == old(newComment) && replyContent == old(replyContent)
      ensures editingId == old(editingId) && editContent == old(editContent)
    {
      replyingTo := if replyingTo == Some(commentId) then None else Some(commentId);
    }
  }
}
