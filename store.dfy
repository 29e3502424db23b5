/** The mock persistence layer of the API client: the branches that keep posts,
    accounts and the signed-in user in the browser's storage instead of calling the
    backend. The three storage keys are the three fields of `MockStore`; a key that
    was never written is `None`. The clock (`Date.now()`) and the random avatar
    number are parameters of the operations that use them, and the moment the
    module was loaded (used by the seed data) is the constant `loadTime`. */
module Store {
  import opened Wrappers
  import opened Text
  import opened Seqs

  datatype Comment = Comment(id: string, text: string, authorId: string, authorName: string,
                             authorAvatar: string, createdAt: int)

  /** What a caller supplies for a new comment. */
  datatype CommentDraft = CommentDraft(text: string, authorId: string, authorName: string, authorAvatar: string)

  /** A stored post. The three fields the code reads with a default (`tags || []`,
      `likes || 0`, `comments || []`) may be missing. */
  datatype Post = Post(id: string, title: string, content: string, excerpt: string, coverUrl: string,
                       tags: Option<seq<string>>, likes: Option<int>, comments: Option<seq<Comment>>,
                       authorId: string, authorName: string, authorAvatar: string,
                       createdAt: int, readTimeMinutes: int)

  /** What the editor supplies for a new post. */
  datatype PostDraft = PostDraft(title: string, content: string, excerpt: string, coverUrl: string,
                                 tags: Option<seq<string>>, authorId: string, authorName: string,
                                 authorAvatar: string, readTimeMinutes: int)

  /** A partial post for an update: every field either given or not. */
  datatype PostPatch = PostPatch(id: Option<string>, title: Option<string>, content: Option<string>,
                                 excerpt: Option<string>, coverUrl: Option<string>,
                                 tags: Option<seq<string>>, likes: Option<int>,
                                 comments: Option<seq<Comment>>, authorId: Option<string>,
                                 authorName: Option<string>, authorAvatar: Option<string>,
                                 createdAt: Option<int>, readTimeMinutes: Option<int>)

  /** A user as the application sees it: no password. */
  datatype User = User(id: string, username: string, avatarUrl: string, joinedAt: int,
                       bookmarks: seq<string>, bio: Option<string>)

  /** A stored account: the user and the password kept beside it. */
  datatype Account = Account(profile: User, password: string)

  // ---------------------------------------------------------------------------
  // Seed data

  /** The body of the first demonstration post. */
  const FutureOfAiContent: string := "Artificial Intelligence is rapidly transforming how we build and interact with the web. From intelligent code completion tools like GitHub Copilot to sophisticated generative models that can draft entire layouts, the landscape is shifting. \n\n### The Shift to Intent-Based Coding\n\nDevelopers are no longer just writers of syntax; they are becoming **architects of intent**. We can now describe what we want, and AI helps bridge the gap to implementation. However, this doesn't replace the need for deep understanding. It elevates it. We must understand the principles of design, accessibility, and performance even more deeply to guide these powerful tools effectively.\n\n> \"Creativity and problem-solving skills are more valuable than rote memorization of API methods.\"\n\nThe future is bright, collaborative, and incredibly fast-paced."

  /** The body of the second demonstration post. */
  const MinimalismContent: string := "Minimalism isn't just about using less; it's about making space for what matters. By stripping away the non-essential, we allow the user's focus to land squarely on the content and functionality that drives the application.\n\n### The Power of White Space\n\nWhite space is not empty space\U{00E2}\U{20AC}\U{201D}it is an **active design element**. It provides breathing room, reduces cognitive load, and creates a sense of elegance and sophistication.\n\n- Reduces cognitive load\n- Improves readability\n- Creates hierarchy\n\nWhen we design with restraint, every element that remains must earn its place."

  /** The shorter texts of the seed data. */
  const FutureOfAiExcerpt: string := "Artificial Intelligence is rapidly transforming how we build and interact with the web..."
  const MinimalismExcerpt: string := "Minimalism isn't just about using less; it's about making space for what matters..."
  const SeedCommentText: string := "This is a great perspective! I completely agree about the 'architects of intent' concept."
  const DemoUserBio: string := "Tech enthusiast, avid writer, and coffee lover. I explore the intersection of technology and creativity."
  const AliceBio: string := "UI/UX Designer with a passion for minimalism and accessible design patterns."

  /** The two demonstration posts written on first read, timed relative to `t`. */
  function InitialPosts(t: int): seq<Post> {
    [ Post("1", "The Future of AI in Web Development",
           FutureOfAiContent,
           FutureOfAiExcerpt,
           "https://picsum.photos/800/400?random=1", Some(["AI", "Web Development", "Future"]), Some(42),
           Some([Comment("c1", SeedCommentText,
                         "reader1", "Sarah Jenkins", "https://picsum.photos/100/100?random=201", t - 86400000)]),
           "demo-user", "Demo User", "https://picsum.photos/100/100?random=100", t - 100000000, 3),
      Post("2", "Minimalism in UI Design",
           MinimalismContent,
           MinimalismExcerpt,
           "https://picsum.photos/800/400?random=2", Some(["Design", "UI/UX", "Minimalism"]), Some(128),
           Some([]), "alice-doe", "Alice Doe", "https://picsum.photos/100/100?random=101", t - 50000000, 2) ]
  }

  /** The two demonstration accounts, both with the password "password". */
  function InitialUsers(t: int): seq<Account> {
    [ Account(User("demo-user", "demo-user", "https://picsum.photos/100/100?random=100", t - 100000000, ["2"],
                   Some(DemoUserBio)),
              "password"),
      Account(User("alice-doe", "alice-doe", "https://picsum.photos/100/100?random=101", t - 50000000, [],
                   Some(AliceBio)),
              "password") ]
  }

  /** The accounts login and registration work on: the stored ones, or the seed
      accounts when none are stored (a missing key and an empty list alike). */
  function SeededUsers(users: Option<seq<Account>>, seed: seq<Account>): (r: seq<Account>)
    ensures users.Some? && users.value != [] ==> r == users.value
    ensures (users.None? || users.value == []) ==> r == seed
  {
    if users.GetOr([]) == [] then seed else users.value
  }

  // ---------------------------------------------------------------------------
  // Pure parts of the operations

  /** `posts.findIndex(p => p.id === id)`. */
  function IndexOfPost(posts: seq<Post>, id: string): (r: Option<nat>)
    ensures r.Some? ==> r.value < |posts| && posts[r.value].id == id
    ensures r.Some? ==> forall j :: 0 <= j < r.value ==> posts[j].id != id
    ensures r.None? <==> forall j :: 0 <= j < |posts| ==> posts[j].id != id
  {
    FindFirst(posts, (p: Post) => p.id == id)
  }

  /** `users.findIndex(u => u.id === id)`. */
  function IndexOfUser(users: seq<Account>, id: string): (r: Option<nat>)
    ensures r.Some? ==> r.value < |users| && users[r.value].profile.id == id
    ensures r.Some? ==> forall j :: 0 <= j < r.value ==> users[j].profile.id != id
    ensures r.None? <==> forall j :: 0 <= j < |users| ==> users[j].profile.id != id
  {
    FindFirst(users, (a: Account) => a.profile.id == id)
  }

  function AuthoredBy(userId: string): Post -> bool {
    (p: Post) => p.authorId == userId
  }

  function InIds(ids: seq<string>): Post -> bool {
    (p: Post) => p.id in ids
  }

  function OtherThan(id: string): Post -> bool {
    (p: Post) => p.id != id
  }

  /** `{ ...post, ...patch }`: the given fields replace the post's. */
  function Merge(p: Post, u: PostPatch): Post {
    Post(u.id.GetOr(p.id), u.title.GetOr(p.title), u.content.GetOr(p.content),
         u.excerpt.GetOr(p.excerpt), u.coverUrl.GetOr(p.coverUrl),
         if u.tags.Some? then u.tags else p.tags,
         if u.likes.Some? then u.likes else p.likes,
         if u.comments.Some? then u.comments else p.comments,
         u.authorId.GetOr(p.authorId), u.authorName.GetOr(p.authorName),
         u.authorAvatar.GetOr(p.authorAvatar), u.createdAt.GetOr(p.createdAt),
         u.readTimeMinutes.GetOr(p.readTimeMinutes))
  }

  function Override<T>(a: Option<T>, b: Option<T>): Option<T> {
    if b.Some? then b else a
  }

  /** `{ ...a, ...b }` of two patches. */
  function Combine(a: PostPatch, b: PostPatch): PostPatch {
    PostPatch(Override(a.id, b.id), Override(a.title, b.title), Override(a.content, b.content),
              Override(a.excerpt, b.excerpt), Override(a.coverUrl, b.coverUrl), Override(a.tags, b.tags),
              Override(a.likes, b.likes), Override(a.comments, b.comments), Override(a.authorId, b.authorId),
              Override(a.authorName, b.authorName), Override(a.authorAvatar, b.authorAvatar),
              Override(a.createdAt, b.createdAt), Override(a.readTimeMinutes, b.readTimeMinutes))
  }

  const NoChanges := PostPatch(None, None, None, None, None, None, None, None, None, None, None, None, None)

  /** The post `createPost` stores: the draft with a fresh id and time, no likes,
      no comments, and an empty tag list when none was given. */
  function NewPost(d: PostDraft, now: nat): (r: Post)
    ensures r.id == "post-" + NatToString(now) && r.createdAt == now
    ensures r.likes == Some(0) && r.comments == Some([]) && r.tags == Some(d.tags.GetOr([]))
    ensures r.title == d.title && r.content == d.content && r.authorId == d.authorId
  {
    Post("post-" + NatToString(now), d.title, d.content, d.excerpt, d.coverUrl, Some(d.tags.GetOr([])),
         Some(0), Some([]), d.authorId, d.authorName, d.authorAvatar, now, d.readTimeMinutes)
  }

  /** The comment `addComment` stores. */
  function NewComment(d: CommentDraft, now: nat): Comment {
    Comment("c-" + NatToString(now), d.text, d.authorId, d.authorName, d.authorAvatar, now)
  }

  /** The user `register` creates. */
  function NewUser(username: string, now: nat, avatarSeed: nat): (r: User)
    ensures r.username == username && r.bookmarks == [] && r.joinedAt == now
  {
    User("user-" + NatToString(now), username, "https://picsum.photos/100/100?random=" + NatToString(avatarSeed),
         now, [], Some("I'm a new writer here!"))
  }

  /** The bookmark list after toggling `postId`. */
  function Toggled(bookmarks: seq<string>, postId: string): seq<string> {
    if postId in bookmarks then Filter(bookmarks, (b: string) => b != postId) else bookmarks + [postId]
  }

  /** Whether an account matches the credentials: the username ignoring case, the
      password exactly. */
  predicate Matches(a: Account, username: string, password: string) {
    ToLower(a.profile.username) == ToLower(username) && a.password == password
  }

  /** `users.find(...)` of `login`. */
  function FindAccount(users: seq<Account>, username: string, password: string): (r: Option<nat>)
    ensures r.Some? ==> r.value < |users| && Matches(users[r.value], username, password)
    ensures r.Some? ==> forall j :: 0 <= j < r.value ==> !Matches(users[j], username, password)
    ensures r.None? <==> forall j :: 0 <= j < |users| ==> !Matches(users[j], username, password)
  {
    FindFirst(users, (a: Account) => Matches(a, username, password))
  }

  /** `register`'s duplicate test: some account has the username, ignoring case. */
  predicate UsernameTaken(users: seq<Account>, username: string) {
    FindFirst(users, (a: Account) => ToLower(a.profile.username) == ToLower(username)).Some?
  }

  /** The users list after a bookmark toggle: the first account with the user's
      id, if the list is stored and has one, gets the new bookmarks. */
  function SyncBookmarks(users: Option<seq<Account>>, userId: string, bookmarks: seq<string>): Option<seq<Account>> {
    match users
    case None => None
    case Some(us) =>
      match IndexOfUser(us, userId)
      case None => users
      case Some(i) => Some(us[i := Account(us[i].profile.(bookmarks := bookmarks), us[i].password)])
  }

  // ---------------------------------------------------------------------------
  // The store

  class MockStore {
    /** The "myblog_posts" key. */
    var posts: Option<seq<Post>>
    /** The "myblog_users" key (accounts with their passwords). */
    var users: Option<seq<Account>>
    /** The "myblog_current_user" key. */
    var currentUser: Option<User>
    /** `INITIAL_POSTS` and `INITIAL_USERS`, fixed when the module is loaded. */
    const initialPosts: seq<Post>
    const initialUsers: seq<Account>

    /** The store over the given storage contents, with the seed data timed
        relative to `loadTime`. */
    constructor(posts: Option<seq<Post>>, users: Option<seq<Account>>, currentUser: Option<User>, loadTime: int)
      ensures this.posts == posts && this.users == users && this.currentUser == currentUser
      ensures initialPosts == InitialPosts(loadTime) && initialUsers == InitialUsers(loadTime)
    {
      this.posts := posts;
      this.users := users;
      this.currentUser := currentUser;
      initialPosts := InitialPosts(loadTime);
      initialUsers := InitialUsers(loadTime);
    }

    /** The posts a read sees: the stored ones, or the seed posts. */
    function Posts(): seq<Post>
      reads this
    {
      posts.GetOr(initialPosts)
    }

    /** `getPosts`: the stored posts; on the first read the seed posts are written. */
    method GetPosts() returns (r: seq<Post>)
      modifies this
      ensures r == old(Posts()) && posts == Some(r)
      ensures users == old(users) && currentUser == old(currentUser)
    {
      if posts.None? {
        posts := Some(initialPosts);
      }
      r := posts.value;
    }

    /** `getPostsByUser`: the user's posts, in stored order. */
    method GetPostsByUser(userId: string) returns (r: seq<Post>)
      modifies this
      ensures r == Filter(old(Posts()), AuthoredBy(userId))
      ensures posts == Some(old(Posts())) && users == old(users) && currentUser == old(currentUser)
    {
      var all := GetPosts();
      r := Filter(all, AuthoredBy(userId));
    }

    /** `getBookmarkedPosts`: the posts whose id is listed, in stored order (not in
        the order of the ids). */
    method GetBookmarkedPosts(bookmarkIds: seq<string>) returns (r: seq<Post>)
      modifies this
      ensures r == Filter(old(Posts()), InIds(bookmarkIds))
      ensures posts == Some(old(Posts())) && users == old(users) && currentUser == old(currentUser)
    {
      var all := GetPosts();
      r := Filter(all, InIds(bookmarkIds));
    }

    /** `getPostById`: the first post with the id. */
    method GetPostById(id: string) returns (r: Option<Post>)
      modifies this
      ensures r == (match IndexOfPost(old(Posts()), id) case None => None case Some(i) => Some(old(Posts())[i]))
      ensures posts == Some(old(Posts())) && users == old(users) && currentUser == old(currentUser)
    {
      var all := GetPosts();
      var index := IndexOfPost(all, id);
      if index.Some? {
        r := Some(all[index.value]);
      } else {
        r := None;
      }
    }

    /** `createPost`: the new post goes in front; the others keep their places. */
    method CreatePost(draft: PostDraft, now: nat) returns (r: Post)
      modifies this
      ensures r == NewPost(draft, now)
      ensures posts == Some([r] + old(Posts()))
      ensures users == old(users) && currentUser == old(currentUser)
    {
      var all := GetPosts();
      r := NewPost(draft, now);
      all := [r] + all;
      posts := Some(all);
    }

    /** `updatePost`: the first post with the id takes the given fields and no other
        post changes; with no such post, "Post not found" and the posts are as
        they were (the seed posts are still written on a first read). */
    method UpdatePost(id: string, patch: PostPatch) returns (r: Result<Post>)
      modifies this
      ensures match IndexOfPost(old(Posts()), id)
        case None => r == Err("Post not found") && posts == Some(old(Posts()))
        case Some(i) => r == Ok(Merge(old(Posts())[i], patch))
                        && posts == Some(old(Posts())[i := Merge(old(Posts())[i], patch)])
      ensures users == old(users) && currentUser == old(currentUser)
    {
      var all := GetPosts();
      var index := IndexOfPost(all, id);
      if index.Some? {
        var i := index.value;
        all := all[i := Merge(all[i], patch)];
        posts := Some(all);
        return Ok(all[i]);
      }
      return Err("Post not found");
    }

    /** `deletePost`: every post with the id goes; the rest keep their order. */
    method DeletePost(id: string)
      modifies this
      ensures posts == Some(Filter(old(Posts()), OtherThan(id)))
      ensures users == old(users) && currentUser == old(currentUser)
    {
      var all := Posts();
      posts := Some(Filter(all, OtherThan(id)));
    }

    /** `toggleLike`: despite its name it only adds one like (a missing count
        counts as 0) and returns the new count; for an unknown id it returns 0. */
    method ToggleLike(id: string) returns (likes: int)
      modifies this
      ensures match IndexOfPost(old(Posts()), id)
        case None => likes == 0 && posts == Some(old(Posts()))
        case Some(i) => likes == old(Posts())[i].likes.GetOr(0) + 1
                        && posts == Some(old(Posts())[i := old(Posts())[i].(likes := Some(likes))])
      ensures users == old(users) && currentUser == old(currentUser)
    {
      var all := GetPosts();
      var index := IndexOfPost(all, id);
      if index.Some? {
        var i := index.value;
        likes := all[i].likes.GetOr(0) + 1;
        all := all[i := all[i].(likes := Some(likes))];
        posts := Some(all);
        return;
      }
      likes := 0;
    }

    /** `addComment`: the new comment goes in front of the post's comments. */
    method AddComment(postId: string, draft: CommentDraft, now: nat) returns (r: Result<Comment>)
      modifies this
      ensures match IndexOfPost(old(Posts()), postId)
        case None => r == Err("Post not found") && posts == Some(old(Posts()))
        case Some(i) => r == Ok(NewComment(draft, now))
                        && posts == Some(old(Posts())[i := old(Posts())[i].(comments := Some([NewComment(draft, now)] + old(Posts())[i].comments.GetOr([])))])
      ensures users == old(users) && currentUser == old(currentUser)
    {
      var all := GetPosts();
      var index := IndexOfPost(all, postId);
      if index.Some? {
        var i := index.value;
        var c := NewComment(draft, now);
        all := all[i := all[i].(comments := Some([c] + all[i].comments.GetOr([])))];
        posts := Some(all);
        return Ok(c);
      }
      return Err("Post not found");
    }

    /** `login`: seeds the accounts when none are stored, then signs in the first
        account matching the credentials, or fails with "Invalid credentials". */
    method Login(username: string, password: string) returns (r: Result<User>)
      modifies this
      ensures users == Some(SeededUsers(old(users), initialUsers)) && posts == old(posts)
      ensures match FindAccount(SeededUsers(old(users), initialUsers), username, password)
        case None => r == Err("Invalid credentials") && currentUser == old(currentUser)
        case Some(i) => r == Ok(SeededUsers(old(users), initialUsers)[i].profile) && currentUser == Some(r.value)
    {
      var stored := users.GetOr([]);
      if |stored| == 0 {
        stored := initialUsers;
        users := Some(stored);
      }
      var index := FindAccount(stored, username, password);
      if index.None? {
        return Err("Invalid credentials");
      }
      var safeUser := stored[index.value].profile;
      currentUser := Some(safeUser);
      r := Ok(safeUser);
    }

    /** `register`: refuses a username already taken (ignoring case) and writes
        nothing then; otherwise appends the new account and signs it in. */
    method Register(username: string, password: string, now: nat, avatarSeed: nat) returns (r: Result<User>)
      requires avatarSeed < 1000
      modifies this
      ensures posts == old(posts)
      ensures UsernameTaken(SeededUsers(old(users), initialUsers), username) ==>
                r == Err("Username already taken") && users == old(users) && currentUser == old(currentUser)
      ensures !UsernameTaken(SeededUsers(old(users), initialUsers), username) ==>
                r == Ok(NewUser(username, now, avatarSeed))
                && users == Some(SeededUsers(old(users), initialUsers) + [Account(NewUser(username, now, avatarSeed), password)])
                && currentUser == Some(NewUser(username, now, avatarSeed))
    {
      var stored := users.GetOr([]);
      if |stored| == 0 {
        stored := initialUsers;
      }
      if UsernameTaken(stored, username) {
        return Err("Username already taken");
      }
      var newUser := NewUser(username, now, avatarSeed);
      stored := stored + [Account(newUser, password)];
      users := Some(stored);
      currentUser := Some(newUser);
      r := Ok(newUser);
    }

    /** `logout`. */
    method Logout()
      modifies this
      ensures currentUser == None && posts == old(posts) && users == old(users)
    {
      currentUser := None;
    }

    /** `toggleBookmark`: fails with "Not authenticated" when nobody is signed in;
        otherwise the signed-in user and their stored account get the toggled list. */
    method ToggleBookmark(postId: string) returns (r: Result<seq<string>>)
      modifies this
      ensures posts == old(posts)
      ensures old(currentUser).None? ==>
                r == Err("Not authenticated") && currentUser == None && users == old(users)
      ensures old(currentUser).Some? ==>
                r == Ok(Toggled(old(currentUser).value.bookmarks, postId))
                && currentUser == Some(old(currentUser).value.(bookmarks := r.value))
                && users == SyncBookmarks(old(users), old(currentUser).value.id, r.value)
    {
      if currentUser.None? {
        return Err("Not authenticated");
      }
      var user := currentUser.value;
      var newBookmarks := Toggled(user.bookmarks, postId);
      currentUser := Some(user.(bookmarks := newBookmarks));
      if users.Some? {
        var all := users.value;
        var index := IndexOfUser(all, user.id);
        if index.Some? {
          var i := index.value;
          all := all[i := Account(all[i].profile.(bookmarks := newBookmarks), all[i].password)];
          users := Some(all);
        }
      }
      r := Ok(newBookmarks);
    }
  }

  // ---------------------------------------------------------------------------
  // Properties

  /** Toggling flips the membership of the id and of no other id. */
  lemma ToggledMembership(bookmarks: seq<string>, postId: string)
    ensures postId in Toggled(bookmarks, postId) <==> postId !in bookmarks
    ensures forall x :: x != postId ==> (x in Toggled(bookmarks, postId) <==> x in bookmarks)
  {
    if postId !in bookmarks {
      assert Toggled(bookmarks, postId)[|bookmarks|] == postId;
    }
  }

  /** Removing keeps the other ids in their order; adding puts the id last. */
  lemma ToggledOrder(bookmarks: seq<string>, postId: string)
    ensures postId in bookmarks ==> Toggled(bookmarks, postId) == Filter(bookmarks, (b: string) => b != postId)
    ensures postId in bookmarks ==> IsSubsequence(Toggled(bookmarks, postId), bookmarks)
    ensures postId in bookmarks ==> forall b :: multiset(Toggled(bookmarks, postId))[b] == if b == postId then 0 else multiset(bookmarks)[b]
    ensures postId !in bookmarks ==> Toggled(bookmarks, postId) == bookmarks + [postId]
  {
    FilterCounts(bookmarks, (b: string) => b != postId);
  }

  /** Toggling an id that was absent twice gives the list back. */
  lemma ToggledTwice(bookmarks: seq<string>, postId: string)
    requires postId !in bookmarks
    ensures Toggled(Toggled(bookmarks, postId), postId) == bookmarks
  {
    var keep := (b: string) => b != postId;
    var added := bookmarks + [postId];
    assert postId in added by { assert added[|bookmarks|] == postId; }
    FilterAppend(bookmarks, [postId], keep);
    FilterKeepsAll(bookmarks, keep);
    assert Filter([postId], keep) == [];
  }

  /** After a bookmark toggle exactly one stored account changes, the first with
      the user's id, and only in its bookmarks. */
  lemma SyncBookmarksEffect(us: seq<Account>, userId: string, bookmarks: seq<string>)
    requires IndexOfUser(us, userId).Some?
    ensures var i := IndexOfUser(us, userId).value;
            var r := SyncBookmarks(Some(us), userId, bookmarks).value;
            |r| == |us| && r[i].profile.bookmarks == bookmarks
            && r[i].profile.(bookmarks := us[i].profile.bookmarks) == us[i].profile
            && r[i].password == us[i].password
            && forall j :: 0 <= j < |us| && j != i ==> r[j] == us[j]
  {
  }

  /** An empty patch changes nothing, and applying a patch twice is applying it
      once. */
  lemma MergeLaws(p: Post, u: PostPatch)
    ensures Merge(p, NoChanges) == p
    ensures Merge(Merge(p, u), u) == Merge(p, u)
  {
  }

  /** Two spreads in a row are one spread of the combined patch. */
  lemma MergeCombine(p: Post, a: PostPatch, b: PostPatch)
    ensures Merge(Merge(p, a), b) == Merge(p, Combine(a, b))
  {
  }

  /** After a registration, logging in with the same credentials signs in the new
      account: no earlier account has its username, so it is the first match. */
  lemma RegisterThenLogin(us: seq<Account>, username: string, password: string, newUser: User)
    requires !UsernameTaken(us, username) && newUser.username == username
    ensures FindAccount(us + [Account(newUser, password)], username, password) == Some(|us|)
  {
    var all := us + [Account(newUser, password)];
    forall j | 0 <= j < |us|
      ensures !Matches(all[j], username, password)
    {
      assert all[j] == us[j];
    }
    assert Matches(all[|us|], username, password);
  }

  /** A registration refuses a name that differs from an existing one only in
      case. */
  lemma RegisterIgnoresCase(us: seq<Account>, username: string)
    requires exists i :: 0 <= i < |us| && ToLower(us[i].profile.username) == ToLower(username)
    ensures UsernameTaken(us, username)
  {
  }

  /** A deleted id is gone, every other post stays, in order. */
  lemma DeleteRemovesOnlyId(ps: seq<Post>, id: string)
    ensures IndexOfPost(Filter(ps, OtherThan(id)), id).None?
    ensures forall i :: 0 <= i < |ps| && ps[i].id != id ==> ps[i] in Filter(ps, OtherThan(id))
    ensures IsSubsequence(Filter(ps, OtherThan(id)), ps)
    ensures forall p :: multiset(Filter(ps, OtherThan(id)))[p] == if p.id == id then 0 else multiset(ps)[p]
  {
    FilterCounts(ps, OtherThan(id));
    var r := Filter(ps, OtherThan(id));
    forall j | 0 <= j < |r| ensures r[j].id != id {
      assert r[j] in r;
    }
  }

  /** A created post is the one found under its id. */
  lemma CreateThenFind(ps: seq<Post>, d: PostDraft, now: nat)
    ensures IndexOfPost([NewPost(d, now)] + ps, "post-" + NatToString(now)) == Some(0)
  {
  }

  /** The seeding's purpose: on a store with no accounts, "demo-user" signs in with
      the password "password", whatever the case of the name typed. */
  lemma DemoUserSignsIn(t: int)
    ensures FindAccount(SeededUsers(None, InitialUsers(t)), "demo-user", "password") == Some(0)
    ensures FindAccount(SeededUsers(Some([]), InitialUsers(t)), "Demo-User", "password") == Some(0)
    ensures FindAccount(SeededUsers(None, InitialUsers(t)), "demo-user", "Password").None?
  {
    var demo := InitialUsers(t)[0];
    assert demo.profile.username == "demo-user" && demo.password == "password";
    assert ToLower("Demo-User") == "demo-user";
    assert ToLower("demo-user") == "demo-user";
    assert Matches(demo, "demo-user", "password");
    assert Matches(demo, "Demo-User", "password");
    assert "password" != "Password" by { assert "password"[0] != "Password"[0]; }
  }
}
