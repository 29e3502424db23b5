/** The post editor page: its form state (title, content, cover image, tags and
    the tag being typed), the tag list edits, loading a post for editing (only the
    author may), and saving, with the values derived at save time: the fallback
    excerpt and the reading time. The AI helpers of the page are not modelled; the
    summary they may produce is a parameter of `Save` (`None` when the call
    failed). */
module Editor {
  import opened Wrappers
  import opened Text
  import opened Seqs
  import opened Store

  /** `tags.includes(tag) ? tags : [...tags, tag]`. */
  function WithTag(tags: seq<string>, tag: string): (r: seq<string>)
    ensures tag in r
    ensures tag in tags ==> r == tags
    ensures tag !in tags ==> |r| == |tags| + 1 && r[..|tags|] == tags && r[|tags|] == tag
  {
    if tag in tags then tags else tags + [tag]
  }

  /** `tags.filter(t => t !== tag)`. */
  function WithoutTag(tags: seq<string>, tag: string): (r: seq<string>)
    ensures tag !in r
    ensures forall t :: t != tag ==> (t in r <==> t in tags)
    ensures IsSubsequence(r, tags)
    ensures forall t :: multiset(r)[t] == if t == tag then 0 else multiset(tags)[t]
  {
    FilterCounts(tags, (t: string) => t != tag);
    Filter(tags, (t: string) => t != tag)
  }

  /** Adding never introduces a duplicate. */
  lemma WithTagNoDuplicates(tags: seq<string>, tag: string)
    requires NoDuplicates(tags)
    ensures NoDuplicates(WithTag(tags, tag))
  {
    var r := WithTag(tags, tag);
    if tag !in tags {
      forall i, j | 0 <= i < j < |r| ensures r[i] != r[j] {
        if j == |tags| {
          assert r[i] == tags[i];
        } else {
          assert r[i] == tags[i] && r[j] == tags[j];
        }
      }
    }
  }

  /** Removing a tag just added gives the old list back. */
  lemma RemoveUndoesAdd(tags: seq<string>, tag: string)
    requires tag !in tags
    ensures WithoutTag(WithTag(tags, tag), tag) == tags
  {
    var keep := (t: string) => t != tag;
    FilterAppend(tags, [tag], keep);
    FilterKeepsAll(tags, keep);
    assert Filter([tag], keep) == [];
  }

  /** The number of words as the source counts them: the pieces of a split at
      single spaces (so at least one, even for empty content). */
  function WordCount(content: string): (r: nat)
    ensures r == Count(content, ' ') + 1
  {
    |SplitOn(content, ' ')|
  }

  /** `Math.ceil(words / 200)`: the least number of 200-word minutes that cover
      the words; never less than one. */
  function ReadTimeMinutes(content: string): (r: nat)
    ensures r >= 1
    ensures (r - 1) * 200 < WordCount(content) <= r * 200
  {
    (WordCount(content) + 199) / 200
  }

  /** `content.substring(0, 150) + "..."`: at most the first 150 characters,
      then an ellipsis. */
  function FallbackExcerpt(content: string): (r: string)
    ensures |r| == Min(150, |content|) + 3
    ensures r[..|r| - 3] == content[..|r| - 3] && r[|r| - 3..] == "..."
    ensures |content| <= 150 ==> r == content + "..."
  {
    content[..Min(150, |content|)] + "..."
  }

  /** The cover image chosen when none is set. */
  function DefaultCover(now: nat): string {
    "https://picsum.photos/800/400?random=" + NatToString(now)
  }

  /** The update an edit applies: the editor's fields, nothing about likes,
      comments, id or creation time. */
  function DraftPatch(d: PostDraft): PostPatch {
    PostPatch(None, Some(d.title), Some(d.content), Some(d.excerpt), Some(d.coverUrl), d.tags, None, None,
              Some(d.authorId), Some(d.authorName), Some(d.authorAvatar), None, Some(d.readTimeMinutes))
  }

  /** Saving an edit keeps the post's id, likes, comments and creation time and
      takes every field the editor supplies. */
  lemma EditKeepsIdentity(p: Post, d: PostDraft)
    requires d.tags.Some?
    ensures var q := Merge(p, DraftPatch(d));
            q.id == p.id && q.likes == p.likes && q.comments == p.comments && q.createdAt == p.createdAt
            && q.title == d.title && q.content == d.content && q.excerpt == d.excerpt && q.coverUrl == d.coverUrl
            && q.tags == d.tags && q.authorId == d.authorId && q.readTimeMinutes == d.readTimeMinutes
            && q.authorName == d.authorName && q.authorAvatar == d.authorAvatar
  {
  }

  /** What the load effect did. */
  datatype LoadOutcome = NothingToLoad | Loaded | NotOwner | NotFound

  /** What a save did. */
  datatype SaveOutcome = Skipped | Created(post: Post) | Updated(post: Post) | Failed(error: string)

  class EditorForm {
    var title: string
    var content: string
    var coverUrl: string
    var tags: seq<string>
    var tagInput: string
    /** The post id of the route, absent for a new post. */
    const postId: Option<string>

    /** The form as the page opens it, with a cover picked by the clock. */
    constructor(postId: Option<string>, now: nat)
      ensures title == "" && content == "" && coverUrl == DefaultCover(now) && tags == [] && tagInput == ""
      ensures this.postId == postId
    {
      title := "";
      content := "";
      coverUrl := DefaultCover(now);
      tags := [];
      tagInput := "";
      this.postId := postId;
    }

    /** The page edits an existing post (a non-empty id is truthy). */
    predicate Editing()
    {
      postId.Some? && postId.value != ""
    }

    /** `addTag`. */
    method AddTag(tag: string)
      modifies this
      ensures tags == WithTag(old(tags), tag)
      ensures title == old(title) && content == old(content) && coverUrl == old(coverUrl) && tagInput == old(tagInput)
    {
      if tag !in tags {
        tags := tags + [tag];
      }
    }

    /** `handleAddTag`: Enter with a non-blank input adds the trimmed input and
        clears it; any other key, or a blank input, changes nothing. */
    method HandleAddTag(key: string)
      modifies this
      ensures key == "Enter" && Trim(old(tagInput)) != "" ==>
                tags == WithTag(old(tags), Trim(old(tagInput))) && tagInput == ""
      ensures !(key == "Enter" && Trim(old(tagInput)) != "") ==> tags == old(tags) && tagInput == old(tagInput)
      ensures title == old(title) && content == old(content) && coverUrl == old(coverUrl)
    {
      if key == "Enter" && Trim(tagInput) != "" {
        AddTag(Trim(tagInput));
        tagInput := "";
      }
    }

    /** `handleRemoveTag`. */
    method RemoveTag(tagToRemove: string)
      modifies this
      ensures tags == WithoutTag(old(tags), tagToRemove)
      ensures title == old(title) && content == old(content) && coverUrl == old(coverUrl) && tagInput == old(tagInput)
    {
      tags := WithoutTag(tags, tagToRemove);
    }

    /** The load effect: the post is fetched, and its fields fill the form only
        when the user wrote it. */
    method LoadPost(store: MockStore, user: User) returns (outcome: LoadOutcome)
      modifies this, store
      ensures !Editing() ==> outcome == NothingToLoad && unchanged(this) && unchanged(store)
      ensures Editing() ==> store.posts == Some(old(store.Posts()))
                                 && store.users == old(store.users) && store.currentUser == old(store.currentUser)
      ensures Editing() ==>
        match IndexOfPost(old(store.Posts()), postId.value)
        case None => outcome == NotFound && unchanged(this)
        case Some(i) =>
          var p := old(store.Posts())[i];
          if p.authorId != user.id then outcome == NotOwner && unchanged(this)
          else outcome == Loaded && title == p.title && content == p.content && coverUrl == p.coverUrl
               && tags == p.tags.GetOr([]) && tagInput == old(tagInput)
    {
      if !Editing() {
        return NothingToLoad;
      }
      var post := store.GetPostById(postId.value);
      if post.None? {
        return NotFound;
      }
      var p := post.value;
      if p.authorId != user.id {
        return NotOwner;
      }
      title := p.title;
      content := p.content;
      coverUrl := p.coverUrl;
      tags := p.tags.GetOr([]);
      outcome := Loaded;
    }

    /** Both title and content have something besides whitespace. */
    predicate CanSave()
      reads this
    {
      Trim(title) != "" && Trim(content) != ""
    }

    /** `postData` of `handleSave`. */
    function Draft(user: User, summary: Option<string>, now: nat): (d: PostDraft)
      reads this
      ensures d.title == title && d.content == content && d.tags == Some(tags)
      ensures d.authorId == user.id && d.authorName == user.username && d.authorAvatar == user.avatarUrl
      ensures d.excerpt == summary.GetOr(FallbackExcerpt(content))
      ensures d.coverUrl == (if coverUrl == "" then DefaultCover(now) else coverUrl)
      ensures d.readTimeMinutes == ReadTimeMinutes(content)
    {
      PostDraft(title, content, summary.GetOr(FallbackExcerpt(content)),
                if coverUrl == "" then DefaultCover(now) else coverUrl,
                Some(tags), user.id, user.username, user.avatarUrl, ReadTimeMinutes(content))
    }

    /** `handleSave`: nothing when the title or the content is blank; otherwise
        the post is updated (editing) or created (new), authored by the user. */
    method Save(store: MockStore, user: User, summary: Option<string>, now: nat) returns (outcome: SaveOutcome)
      modifies store
      ensures !CanSave() ==> outcome == Skipped && unchanged(store)
      ensures CanSave() && !Editing() ==>
                outcome == Created(NewPost(Draft(user, summary, now), now))
                && store.posts == Some([outcome.post] + old(store.Posts()))
                && store.users == old(store.users) && store.currentUser == old(store.currentUser)
      ensures CanSave() && Editing() ==>
                store.users == old(store.users) && store.currentUser == old(store.currentUser) &&
                match IndexOfPost(old(store.Posts()), postId.value)
                case None => outcome == Failed("Post not found") && store.posts == Some(old(store.Posts()))
                case Some(i) =>
                  var q := Merge(old(store.Posts())[i], DraftPatch(Draft(user, summary, now)));
                  outcome == Updated(q) && store.posts == Some(old(store.Posts())[i := q])
    {
      if Trim(title) == "" || Trim(content) == "" {
        return Skipped;
      }
      var excerpt := FallbackExcerpt(content);
      if summary.Some? {
        excerpt := summary.value;
      }
      var postData := PostDraft(title, content, excerpt, if coverUrl == "" then DefaultCover(now) else coverUrl,
                                Some(tags), user.id, user.username, user.avatarUrl, ReadTimeMinutes(content));
      assert postData == Draft(user, summary, now);
      if Editing() {
        var r := store.UpdatePost(postId.value, DraftPatch(postData));
        if r.Ok? {
          outcome := Updated(r.value);
        } else {
          outcome := Failed(r.error);
        }
      } else {
        var p := store.CreatePost(postData, now);
        outcome := Created(p);
      }
    }
  }
}
