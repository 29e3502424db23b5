/** The comment section of a post: the relative time shown beside each comment
    and the submit handler that adds a comment through the store and puts it at
    the top of the list. The clock is the parameter `now` (milliseconds). */
module Comments {
  import opened Wrappers
  import opened Text
  import opened Store

  /** `Math.floor((now - timestamp) / 1000)`: whole seconds elapsed, rounded down
      (so negative for a timestamp in the future). */
  function ElapsedSeconds(now: int, timestamp: int): (s: int)
    ensures s * 1000 <= now - timestamp < s * 1000 + 1000
  {
    (now - timestamp) / 1000
  }

  /** `getTimeAgo`, division by division as the source computes it. Its
      buckets in closed form: under a minute (a timestamp in the future
      included) "just now", then whole minutes under an hour, whole hours under
      a day, and whole days beyond. */
  function TimeAgo(now: int, timestamp: int): (r: string)
    ensures var s := ElapsedSeconds(now, timestamp);
            (s < 60 ==> r == "just now")
            && (60 <= s < 3600 ==> r == NatToString(s / 60) + "m ago")
            && (3600 <= s < 86400 ==> r == NatToString(s / 3600) + "h ago")
            && (86400 <= s ==> r == NatToString(s / 86400) + "d ago")
  {
    var seconds := ElapsedSeconds(now, timestamp);
    if seconds < 60 then "just now"
    else
      var minutes := seconds / 60;
      if minutes < 60 then NatToString(minutes) + "m ago"
      else
        var hours := minutes / 60;
        if hours < 24 then NatToString(hours) + "h ago"
        else
          var days := hours / 24;
          NatToString(days) + "d ago"
  }

  /** The number shown for minutes can be read back: it is the exact count of
      whole minutes. */
  lemma MinutesReadBack(now: int, timestamp: int)
    requires 60 <= ElapsedSeconds(now, timestamp) < 3600
    ensures var r := TimeAgo(now, timestamp);
            |r| > 5 && r[|r| - 5..] == "m ago"
            && ParseNat(r[..|r| - 5]) == ElapsedSeconds(now, timestamp) / 60
  {
    var n := ElapsedSeconds(now, timestamp) / 60;
    var r := TimeAgo(now, timestamp);
    assert r == NatToString(n) + "m ago";
    assert r[..|r| - 5] == NatToString(n);
    ParseNatToString(n);
  }

  /** The comment list shown under a post, and the text being typed. */
  class CommentSection {
    var comments: seq<Comment>
    var newComment: string
    const postId: string

    constructor(postId: string, initialComments: Option<seq<Comment>>)
      ensures comments == initialComments.GetOr([]) && newComment == "" && this.postId == postId
    {
      comments := initialComments.GetOr([]);
      newComment := "";
      this.postId := postId;
    }

    /** `handleSubmit`: nothing without a user or with a blank comment; otherwise
        the text as typed (not trimmed) is sent, and on success the stored
        comment goes to the top of the list and the input is cleared, while on
        failure the list and the input stay. */
    method HandleSubmit(store: MockStore, user: Option<User>, now: nat)
      modifies this, store
      ensures user.None? || Trim(old(newComment)) == "" ==> unchanged(this) && unchanged(store)
      ensures user.Some? && Trim(old(newComment)) != "" ==>
        var draft := CommentDraft(old(newComment), user.value.id, user.value.username, user.value.avatarUrl);
        store.users == old(store.users) && store.currentUser == old(store.currentUser) &&
        match IndexOfPost(old(store.Posts()), postId)
        case None => comments == old(comments) && newComment == old(newComment)
                     && store.posts == Some(old(store.Posts()))
        case Some(i) =>
          comments == [NewComment(draft, now)] + old(comments) && newComment == ""
          && store.posts == Some(old(store.Posts())[i := old(store.Posts())[i].(comments := Some([NewComment(draft, now)] + old(store.Posts())[i].comments.GetOr([])))])
    {
      if user.None? || Trim(newComment) == "" {
        return;
      }
      var u := user.value;
      var added := store.AddComment(postId, CommentDraft(newComment, u.id, u.username, u.avatarUrl), now);
      if added.Ok? {
        comments := [added.value] + comments;
        newComment := "";
      }
    }
  }
}
