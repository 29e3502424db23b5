# A blog front end, modelled in Dafny

The application is a small blogging site. Users sign in, write posts in a
Markdown dialect, tag them, like, bookmark and comment on them, and search them.
This project models its core and proves properties of that model:

- **The Markdown renderer.** A single pass over the lines classifies each line
  as a heading, blockquote, list item, code fence, code line, spacer or
  paragraph. It carries the pending list items, an open-fence flag and the
  buffered code lines from line to line. Inline text goes through a
  regular-expression split into bold, italic, code and plain spans
  (`inline.dfy`, `markdown.dfy`).
- **The mock data store.** This is the browser-storage backend the site uses in
  its demo mode: posts, accounts and the signed-in user. It seeds
  demonstration data on first use (`store.dfy`).
- **The editor page.** It covers tag editing, loading a post for editing
  (only its author may), the save guard, the fallback excerpt and the
  reading-time estimate (`editor.dfy`).
- **The comment section.** It covers the relative-time label and the submit
  handler (`comments.dfy`).
- **The home page search filter** (`search.dfy`).

`text.dfy` and `seqs.dfy` give the JavaScript string and array operations the
core relies on:

- `trim`, `split`, `join`, `includes`, `startsWith` and ASCII `toLowerCase`;
- `filter` and `findIndex`;
- decimal printing of numbers.

`wrappers.dfy` holds `Option` and `Result`.

Inputs from outside the model become parameters:

- the clock (`Date.now()`) is `now`;
- `Math.random()` becomes the number it produces (`avatarSeed`);
- the AI summary the editor requests is `summary: Option<string>`, where `None`
  means the request failed.

Browser storage becomes three fields of `Store.MockStore`. Each is `None` when
its key is absent, so the "first read seeds the data" branches are modelled
exactly. Thrown errors become `Result.Err` with the source's message.

Three behaviours of the code are easy to misread:

- Headings and blockquotes return before the list flush in the renderer. So
  they do **not** close a pending list: the list is emitted later, after them
  (`Markdown.StepHeadingOrQuote`, `Markdown.RunHeadings`,
  `Markdown.HeadingsBeforeList`). Code fences do not close it either
  (`Markdown.ListAfterCodeBlock`).
- A blank line after a list still emits a spacer. The comment at
  `components/MarkdownRenderer.tsx:81` says the spacer is skipped after a list.
  But the guard runs after the flush has already emptied the list
  (`Markdown.BlankLineSpacer`).
- `toggleLike` never removes a like. It only adds one (`Store.MockStore.ToggleLike`).

## Model

| member | source | states |
|---|---|---|
| Text.IsWhitespace | components/MarkdownRenderer.tsx:80 | no contract: the characters JavaScript's `trim` removes; used by `TrimEmptyIff`, `TrimStartSpec`, `TrimEndSpec` |
| Text.TrimStart | pages/Editor.tsx:109 | leading-whitespace removal, never longer than its input; what it drops and keeps is stated by `TrimStartSpec` |
| Text.TrimEnd | pages/Editor.tsx:109 | trailing-whitespace removal, never longer than its input; what it drops and keeps is stated by `TrimEndSpec` |
| Text.Trim | components/MarkdownRenderer.tsx:23 | no contract: `TrimEnd` of `TrimStart`; its properties are `TrimEmptyIff`, `TrimStartSpec`, `TrimEndSpec` |
| Text.StartsWith | components/MarkdownRenderer.tsx:46 | no contract: `startsWith`, the prefix of the length of `p` is `p` |
| Text.EndsWith | components/MarkdownRenderer.tsx:110 | no contract: `endsWith`, the suffix of the length of `p` is `p` |
| Text.Contains | pages/Home.tsx:29 | no contract: `includes`; stated position-wise by `ContainsIff` and `ContainsPrefix` |
| Text.Join | components/MarkdownRenderer.tsx:28 | no contract: `join`; related to `SplitOn` by `JoinSplit` and `SplitJoin` |
| Text.NatToString | components/CommentSection.tsx:42 | decimal printing of a count: at least one digit, only digits, no leading zero; read back by `ParseNatToString` |
| Text.TrimEmptyIff | components/MarkdownRenderer.tsx:80 | a line is blank (trims to "") exactly when every character is whitespace |
| Text.TrimStartSpec | pages/Editor.tsx:109 | `trim` drops exactly a whitespace prefix and leaves a non-whitespace first character |
| Text.TrimEndSpec | pages/Editor.tsx:109 | `trim` drops exactly a whitespace suffix and leaves a non-whitespace last character |
| Text.SplitOn | components/MarkdownRenderer.tsx:13 | `split('\n')` gives one piece more than there are separators, none containing the separator |
| Text.JoinSplit | components/MarkdownRenderer.tsx:13 | joining the pieces of a split with the separator gives the text back |
| Text.SplitJoin | components/MarkdownRenderer.tsx:28 | splitting a join of separator-free lines gives the lines back |
| Text.ContainsIff | pages/Home.tsx:29 | `includes` holds exactly when the needle occurs at some position |
| Text.ContainsPrefix | pages/Home.tsx:29 | a text that includes `t + u` includes `t` |
| Text.ToLower | pages/Home.tsx:27 | lower-casing keeps the length and maps each character on its own |
| Text.ToLowerAppend | pages/Home.tsx:27 | lower-casing distributes over concatenation |
| Text.ParseNatToString | components/CommentSection.tsx:42 | the decimal printed for a count reads back as that count |
| Seqs.Filter | pages/Home.tsx:28 | `filter` keeps exactly the passing elements, in order (a subsequence) |
| Seqs.FilterCounts | pages/Home.tsx:28 | counted with multiplicity, `filter` keeps every copy of a passing element and no copy of any other |
| Seqs.FilterAppend | pages/Editor.tsx:123 | filtering distributes over concatenation |
| Seqs.FindFirst | services/api.ts:384 | `findIndex` gives the first passing index, and none exactly when no element passes |
| Inline.SplitFrom | components/MarkdownRenderer.tsx:107 | no contract: the sticky scan that the split performs; stated by `SplitSpec`, `SplitFromLeftmost` |
| Inline.Split | components/MarkdownRenderer.tsx:107 | no contract: `split` with the capturing pattern; its meaning is `SplitSpec` |
| Inline.LeftmostSplit | components/MarkdownRenderer.tsx:107 | no contract: the reference split that jumps from one leftmost match to the next; equal to `Split` by `SplitSpec` |
| Inline.FindClose | components/MarkdownRenderer.tsx:107 | a lazy `.*?d` ends at the first `d` reachable without crossing a line terminator, and fails only when there is none |
| Inline.MatchAt | components/MarkdownRenderer.tsx:107 | a match of the pattern is at least two characters and ends within the text |
| Inline.FindCloseReaches | components/MarkdownRenderer.tsx:107 | a closing delimiter reachable without crossing a line terminator is found, there or at an earlier one |
| Inline.NextMatch | components/MarkdownRenderer.tsx:107 | a position found lies at or after `p`, inside the text, and the pattern matches there |
| Inline.NextMatchNoneBefore | components/MarkdownRenderer.tsx:107 | the pattern matches nowhere before the position found, and nowhere from `p` on when nothing is found |
| Inline.NextMatchFinds | components/MarkdownRenderer.tsx:107 | a match at any position from `p` on means something is found, there or earlier |
| Inline.NoMatchInIff | components/MarkdownRenderer.tsx:107 | a match-free range is one where the pattern matches at no position |
| Inline.SplitFromLeftmost | components/MarkdownRenderer.tsx:107 | the split from a position with no match before the scan point is the leftmost-match split |
| Inline.SplitSpec | components/MarkdownRenderer.tsx:107 | the split loses no text, alternates unmatched text with single matches, and each match is the leftmost one left of it, with the alternatives tried in order and the shortest close |
| Inline.BoldBeforeItalicExample | components/MarkdownRenderer.tsx:107-111 | `**a*b**` is one bold match `a*b`: the bold alternative wins at the leftmost position |
| Inline.SliceInner | components/MarkdownRenderer.tsx:111 | `slice(n, -n)` strips `n` characters at each end, or gives "" when nothing is left |
| Inline.Classify | components/MarkdownRenderer.tsx:109-120 | bold, then italic, then code are chosen by the first and last characters, with their delimiters stripped; anything else stays plain, unchanged |
| Inline.ParseInline | components/MarkdownRenderer.tsx:104-121 | one span per piece of the split, in order, and always an odd number of them |
| Inline.AlternatesOdd | components/MarkdownRenderer.tsx:107 | an alternating split has odd length |
| Inline.TokenSpan | components/MarkdownRenderer.tsx:107-118 | each match becomes a span with the text up to the first closing delimiter: no closing delimiter and no line terminator inside, and `**` alone becomes an empty bold span |
| Inline.BoldTokenShape | components/MarkdownRenderer.tsx:107-111 | a bold match is `**c**` with no `**` inside `c` |
| Inline.SingleTokenShape | components/MarkdownRenderer.tsx:107-117 | an italic or code match is `dcd` with no `d` in `c` |
| Inline.LeadingMatchEmptyPlain | components/MarkdownRenderer.tsx:107 | a line that opens with a match begins with an empty plain span |
| Inline.TripleStarExample | components/MarkdownRenderer.tsx:107-114 | `***x***` parses as a bold `*x` and then an empty italic (no nesting) |
| Inline.LoneDelimiterExample | components/MarkdownRenderer.tsx:113-117 | a lone `*` or backtick is no match but still becomes an empty italic or code span |
| Inline.TrailingStarsExample | components/MarkdownRenderer.tsx:107-111 | a trailing `**` is matched by the italic pattern and shows as an empty bold span |
| Markdown.IsFence | components/MarkdownRenderer.tsx:23 | no contract: the trimmed line starts with three backticks; used by `NotFenceByFirstChar`, `ListItemNotFence`, `FencedBlock` |
| Markdown.IsHeading | components/MarkdownRenderer.tsx:46-57 | no contract: the three heading markers; used by `StepHeadingOrQuote`, `HeadingNeedsExactPrefix` |
| Markdown.IsQuote | components/MarkdownRenderer.tsx:60 | no contract: the quote marker; used by `StepHeadingOrQuote` |
| Markdown.IsListItem | components/MarkdownRenderer.tsx:70 | no contract: either list marker; used by `StepItem`, `ListRun`, `ListItemNotFence` |
| Markdown.LineBlock | components/MarkdownRenderer.tsx:46-85 | no contract: a line's own block outside code and lists; its cases are `StepSimple`, `BlankLineSpacer`, `HeadingNeedsExactPrefix` |
| Markdown.Flush | components/MarkdownRenderer.tsx:73-77 | no contract: the pending list emitted as one block; used by `BlankLineSpacer`, `ListThenLine`, `UnterminatedFence` |
| Markdown.Step | components/MarkdownRenderer.tsx:19-86 | no contract: the line rule in the source's branch order; stated by `StepPending`, `StepSimple`, `StepItem`, `StepHeadingOrQuote`, `BlankLineSpacer`, `CodeBody` |
| Markdown.Run | components/MarkdownRenderer.tsx:19-86 | no contract: the fold of `Step`; stated by `RunAppend`, `RunPending`, `RunTidy`, `RunExtends`, `RunSimple`, `ListRun`, `RunHeadings` |
| Markdown.Finish | components/MarkdownRenderer.tsx:88-99 | no contract: the end-of-input flushes; stated by `UnterminatedFence`, `HeadingsBeforeList` |
| Markdown.Blocks | components/MarkdownRenderer.tsx:12-13 | no contract: the pass over the lines of the text; computed by `ParseMarkdown`, stated by `RenderSimple` |
| Markdown.Render | components/MarkdownRenderer.tsx:8 | no contract: `null` for empty content; computed by `RenderContent`, stated by `RenderEmptyIff` |
| Markdown.LineBlocks | components/MarkdownRenderer.tsx:46-85 | one block per line |
| Markdown.ParseMarkdown | components/MarkdownRenderer.tsx:12-101 | the loop, branch for branch, computes the fold of the line rule over the lines followed by the end-of-input flushes |
| Markdown.RenderContent | components/MarkdownRenderer.tsx:7-8 | empty content renders nothing, and any other content its blocks |
| Markdown.RenderEmptyIff | components/MarkdownRenderer.tsx:8 | nothing is rendered exactly for empty content, and other content gives at least one block |
| Markdown.StepPending | components/MarkdownRenderer.tsx:19-86 | every line emits a block, adds a list item or opens or continues a code block |
| Markdown.RunPending | components/MarkdownRenderer.tsx:19-86 | once something is pending or emitted it stays so |
| Markdown.RunAppend | components/MarkdownRenderer.tsx:19 | scanning `a + b` is scanning `a`, then `b` |
| Markdown.RunTidy | components/MarkdownRenderer.tsx:31-43 | outside a code block the code buffer is always empty |
| Markdown.RunExtends | components/MarkdownRenderer.tsx:19-86 | emitted blocks are never changed, only appended to |
| Markdown.CodeBody | components/MarkdownRenderer.tsx:40-43 | inside a fence every non-fence line is buffered verbatim, in order, and nothing else changes |
| Markdown.RunOne | components/MarkdownRenderer.tsx:19 | scanning one line is one step |
| Markdown.FencedBlock | components/MarkdownRenderer.tsx:23-43 | a fenced block yields one code block of its lines joined by line breaks, and a pending list stays pending |
| Markdown.UnterminatedFence | components/MarkdownRenderer.tsx:88-99 | an unclosed fence still yields its code block at the end, after the pending list |
| Markdown.NotFenceByFirstChar | components/MarkdownRenderer.tsx:23 | a line starting with neither whitespace nor a backtick is no fence |
| Markdown.BlankLineSpacer | components/MarkdownRenderer.tsx:73-82 | a blank line flushes the pending list and always adds a spacer |
| Markdown.StepSimple | components/MarkdownRenderer.tsx:46-85 | with no list pending, a line that is no fence and no list item adds exactly its own block |
| Markdown.RunSimple | components/MarkdownRenderer.tsx:19-86 | lines without fences and list items give one block each, in order |
| Markdown.RenderSimple | components/MarkdownRenderer.tsx:12-101 | a text without fences and list items renders one block per line |
| Markdown.ItemSpans | components/MarkdownRenderer.tsx:71 | one span list per list item line |
| Markdown.ItemSpansAt | components/MarkdownRenderer.tsx:71 | item `i` is the spans of line `i` after its two-character marker |
| Markdown.StepItem | components/MarkdownRenderer.tsx:70-72 | a `- ` or `* ` line outside a code block adds the spans of its text to the pending list and emits nothing |
| Markdown.ListRun | components/MarkdownRenderer.tsx:70-72 | consecutive items, with either marker in any mix, accumulate into one pending list |
| Markdown.ListThenLine | components/MarkdownRenderer.tsx:70-85 | items with either marker followed by an ordinary line give one bullet list and then the line's block |
| Markdown.ListItemNotFence | components/MarkdownRenderer.tsx:70 | a list item line is never a fence |
| Markdown.HeadingBeforePendingList | components/MarkdownRenderer.tsx:46-91 | a heading after a list item is emitted before the list |
| Markdown.StepHeadingOrQuote | components/MarkdownRenderer.tsx:46-67 | a heading or quote outside a code block emits its own block and leaves the pending list untouched |
| Markdown.RunHeadings | components/MarkdownRenderer.tsx:46-67 | a run of headings and quotes emits their blocks in order and keeps a pending list of any length pending |
| Markdown.HeadingsBeforeList | components/MarkdownRenderer.tsx:46-91 | list items followed by headings and quotes render as those blocks first and the whole list last |
| Markdown.ListAfterCodeBlock | components/MarkdownRenderer.tsx:23-91 | a fenced block after a list item is emitted before the list |
| Markdown.LineBlocksAt | components/MarkdownRenderer.tsx:46-85 | each position holds that line's block |
| Markdown.HeadingNeedsExactPrefix | components/MarkdownRenderer.tsx:46-57 | `#### x` and ` # x` are paragraphs |
| Store.InitialPosts | services/api.ts:21-61 | no contract: the two seed posts, timed relative to the load time |
| Store.InitialUsers | services/api.ts:63-84 | no contract: the two seed accounts; used by `DemoUserSignsIn` |
| Store.AuthoredBy | services/api.ts:323 | no contract: the author test; used by `MockStore.GetPostsByUser` |
| Store.InIds | services/api.ts:333 | no contract: the id-list test; used by `MockStore.GetBookmarkedPosts` |
| Store.OtherThan | services/api.ts:411 | no contract: the delete test; stated by `DeleteRemovesOnlyId` |
| Store.Merge | services/api.ts:386 | no contract: the object spread of a patch over a post; stated by `MergeLaws`, `MergeCombine`, `EditKeepsIdentity` |
| Store.NewComment | services/api.ts:448-452 | no contract: the draft with id `c-<now>` and time `now`; used by `MockStore.AddComment` |
| Store.Toggled | services/api.ts:270-274 | no contract: the bookmark toggle; stated by `ToggledMembership`, `ToggledOrder`, `ToggledTwice` |
| Store.Matches | services/api.ts:172 | no contract: name equal ignoring case, password equal exactly; used by `FindAccount` |
| Store.UsernameTaken | services/api.ts:212 | no contract: some account has the name ignoring case; stated by `RegisterIgnoresCase` |
| Store.SyncBookmarks | services/api.ts:280-288 | no contract: the write-back to the stored accounts; stated by `SyncBookmarksEffect` |
| Store.MockStore.Posts | services/api.ts:306-312 | no contract: the posts a read sees, stored or seed; used by every post operation's contract |
| Store.SeededUsers | services/api.ts:163-170 | the stored accounts, or the seed accounts when the key is absent or the list is empty |
| Store.IndexOfPost | services/api.ts:384 | the first post with the id, and none exactly when no post has it |
| Store.IndexOfUser | services/api.ts:283 | the first account with the id, and none exactly when no account has it |
| Store.NewPost | services/api.ts:355-362 | a new post gets the id `post-<now>`, time `now`, no likes, no comments, and an empty tag list when none is given |
| Store.NewUser | services/api.ts:216-225 | a new user has the typed name, no bookmarks and joins at `now` |
| Store.FindAccount | services/api.ts:172 | the first account whose name matches ignoring case and whose password matches exactly |
| Store.MockStore.GetPosts | services/api.ts:304-313 | the stored posts, with the seed posts written on the first read |
| Store.MockStore.GetPostsByUser | services/api.ts:319-324 | the user's posts in stored order |
| Store.MockStore.GetBookmarkedPosts | services/api.ts:329-334 | the posts whose id is listed, in stored order |
| Store.MockStore.GetPostById | services/api.ts:339-344 | the first post with the id, if any |
| Store.MockStore.CreatePost | services/api.ts:351-366 | the new post goes in front and the other posts keep their places |
| Store.MockStore.UpdatePost | services/api.ts:380-391 | the first post with the id takes the patch's fields and nothing else changes; otherwise "Post not found" |
| Store.MockStore.DeletePost | services/api.ts:405-414 | every post with the id goes and the rest keep their order |
| Store.MockStore.ToggleLike | services/api.ts:425-436 | one like is added (a missing count counts as 0) and the new count returned; an unknown id gives 0 |
| Store.MockStore.AddComment | services/api.ts:442-460 | the comment goes in front of the post's comments; otherwise "Post not found" |
| Store.MockStore.Login | services/api.ts:159-181 | accounts are seeded when none are stored, then the first matching account signs in, or "Invalid credentials" leaves the session unchanged |
| Store.MockStore.Register | services/api.ts:200-233 | a name taken ignoring case is refused with nothing written; otherwise the account is appended and signed in |
| Store.MockStore.Logout | services/api.ts:251-258 | the session ends and nothing else changes |
| Store.MockStore.ToggleBookmark | services/api.ts:260-291 | with nobody signed in, "Not authenticated"; otherwise the session user and the first stored account with its id get the toggled list |
| Store.ToggledMembership | services/api.ts:270-274 | toggling flips the membership of that id and of no other |
| Store.ToggledOrder | services/api.ts:270-274 | removing is the filter that drops every copy of the id and keeps each other id with its multiplicity, in order; adding puts the id last |
| Store.ToggledTwice | services/api.ts:270-274 | toggling an absent id twice restores the list |
| Store.SyncBookmarksEffect | services/api.ts:280-288 | exactly one stored account changes, and only in its bookmarks |
| Store.MergeLaws | services/api.ts:386 | an empty patch changes nothing, and a patch applied twice equals it applied once |
| Store.MergeCombine | services/api.ts:386 | two spreads in a row are one spread of the combined patch |
| Store.RegisterThenLogin | services/api.ts:172-229 | after a registration the same credentials sign in the new account |
| Store.RegisterIgnoresCase | services/api.ts:212 | a name differing from an existing one only in case is taken |
| Store.DeleteRemovesOnlyId | services/api.ts:411 | after a delete the id is gone and every other post remains, in order and with its multiplicity |
| Store.CreateThenFind | services/api.ts:355-363 | a created post is the one found under its id |
| Store.DemoUserSignsIn | services/api.ts:166-172 | on an empty store "demo-user" with "password" signs in whatever the case of the name, and a wrong password does not |
| Editor.DefaultCover | pages/Editor.tsx:18 | no contract: the placeholder cover with the clock as query; used by `EditorForm.Draft` |
| Editor.DraftPatch | pages/Editor.tsx:167-180 | no contract: the editor's fields as an update; stated by `EditKeepsIdentity` |
| Editor.EditorForm.Editing | pages/Editor.tsx:13 | no contract: the route has a post id; used by `EditorForm.Save` and `EditorForm.LoadPost` |
| Editor.EditorForm.CanSave | pages/Editor.tsx:156 | no contract: title and content are both non-blank; used by `EditorForm.Save` |
| Editor.WithTag | pages/Editor.tsx:116-120 | the tag is present afterwards; a present tag leaves the list alone, and a new one is appended last |
| Editor.WithoutTag | pages/Editor.tsx:122-124 | every copy of the tag goes, the other tags stay, in order and with their multiplicity |
| Editor.WithTagNoDuplicates | pages/Editor.tsx:116-120 | adding never creates a duplicate |
| Editor.RemoveUndoesAdd | pages/Editor.tsx:116-124 | removing a tag just added restores the list |
| Editor.WordCount | pages/Editor.tsx:176 | the words are the space-separated pieces: one more than the spaces |
| Editor.ReadTimeMinutes | pages/Editor.tsx:176 | the least number of 200-word minutes covering the words, at least one |
| Editor.FallbackExcerpt | pages/Editor.tsx:160 | the first 150 characters (or all of a shorter text) followed by "..." |
| Editor.EditKeepsIdentity | pages/Editor.tsx:167-180 | an edit keeps id, likes, comments and creation time and takes every editor field, author name and avatar included |
| Editor.EditorForm.AddTag | pages/Editor.tsx:116-120 | the tags become `WithTag` of the old tags; the other fields stay |
| Editor.EditorForm.HandleAddTag | pages/Editor.tsx:108-114 | Enter with a non-blank input adds the trimmed input and clears it; anything else changes nothing |
| Editor.EditorForm.RemoveTag | pages/Editor.tsx:122-124 | the tags become `WithoutTag` of the old tags; the other fields stay |
| Editor.EditorForm.LoadPost | pages/Editor.tsx:40-68 | a post is loaded only when there is an id, the post exists and the user wrote it, in which case its fields fill the form |
| Editor.EditorForm.Draft | pages/Editor.tsx:160-177 | the saved record: the summary or the fallback excerpt, the default cover when none is set, the reading time, and the user as author |
| Editor.EditorForm.Save | pages/Editor.tsx:155-183 | a blank title or content saves nothing; otherwise an edit updates the post and a new post is created in front |
| Comments.ElapsedSeconds | components/CommentSection.tsx:39 | the elapsed milliseconds rounded down to whole seconds |
| Comments.TimeAgo | components/CommentSection.tsx:38-47 | the nested divisions equal the closed-form buckets: "just now" under a minute, then whole minutes, hours and days |
| Comments.MinutesReadBack | components/CommentSection.tsx:42-43 | the minutes label carries the exact count of whole minutes |
| Comments.CommentSection.HandleSubmit | components/CommentSection.tsx:17-36 | without a user or with a blank input nothing happens; otherwise the untrimmed text is stored, and on success the comment goes first and the input clears, while on failure both stay |
| Search.PostMatches | pages/Home.tsx:28-31 | no contract: title, some tag or content includes the query; stated by `FilteredPosts`, `TagHitShows`, `QueryCaseIgnored` |
| Search.AnyTagMatches | pages/Home.tsx:29 | some tag, lower-cased, includes the query |
| Search.FilteredPosts | pages/Home.tsx:26-33 | exactly the posts whose title, some tag or content includes the lower-cased query, in their order and with their multiplicity |
| Search.EmptyQueryKeepsAll | pages/Home.tsx:26-33 | an empty search shows every post |
| Search.QueryCaseIgnored | pages/Home.tsx:27 | a query and its lower-cased form show the same posts |
| Search.LongerQueryNarrows | pages/Home.tsx:26-33 | typing more never brings a post back |
| Search.TagHitShows | pages/Home.tsx:29 | a tag equal to the query in any case makes its post show |

## Left out

- Rendering to HTML elements, their keys and CSS classes: the model produces the block and span structure the renderer turns into elements.
- The real HTTP backend, the authentication token, and every branch where the mock switch is off.
- `getCurrentUser`: it reads the stored session record.
- `getUserProfile` (`services/api.ts:123-148`): serves the profile page, which is not part of this model; its fallbacks to the seed accounts for a missing bio or a missing account are therefore not modelled either.
- The simulated network delays, and the asynchrony of every call: each store call is one atomic step.
- The JSON round trip through browser storage: fields hold values. So `role` and the password-stripping spread are not modelled; an account is a user with a password. `role` is read only by the admin route (`App.tsx:78`), and no modelled operation reads it.
- The seed arrays are mutated in place: `register` pushes onto the seed accounts when it seeded (`services/api.ts:209`, `:227`), and `createPost` unshifts onto the array `getPosts` returned, which is the seed posts on a first read (`services/api.ts:310`, `:363`). `updatePost` (`services/api.ts:386`), `toggleLike` (`:431`) and `addComment` (`:455`) likewise write into the seed array or the seed post objects on a first read. Each operation then writes the array to storage, so no modelled operation reads the mutated seed again; the model keeps the seeds constant.
- `Store.MockStore.ToggleBookmark`: `User.bookmarks` is never missing in the model, so the `|| []` fallback is not modelled.
- `Store.MockStore.AddComment`: the stored comment takes the draft's four fields; extra or missing properties of `Partial<Comment>` are not modelled.
- `Editor.EditorForm.Save`: both `Date.now()` calls of a save read the same `now`, and the failure alert and navigation are not modelled. The store calls that can throw (`updatePost` with "Post not found", `services/api.ts:390`) come back as `SaveOutcome.Failed`; what the catch block then shows is not modelled. Likewise `addComment` throws "Post not found" (`services/api.ts:459`); `Comments.CommentSection.HandleSubmit` models that path as leaving the list and the input unchanged, and the logged error is not modelled.
- `Store.MockStore.CreatePost`: the id and `createdAt` come from two `Date.now()` calls (`services/api.ts:357-358`), which the model reads as one `now`, so the id always matches the creation time.
- `Store.MockStore.Register`: the id and `joinedAt` come from two `Date.now()` calls (`services/api.ts:217`, `:221`), read as one `now`.
- `Store.MockStore.AddComment`: the comment's id and `createdAt` come from two `Date.now()` calls (`services/api.ts:450-451`), read as one `now`.
- `Store.CreateThenFind`: relies on the single `now`; with two clock reads the id still names the created post, but its number may differ from `createdAt`.
- The editor's AI helpers (content, image, tags, titles, review) and the preview toggle: they call a remote model.
- Loading and submitting flags, and the alert and navigation of `LoadPost`: they only affect the display.
- Text is a sequence of Unicode scalar values, while JavaScript strings are UTF-16 code units, so `substring(0, 150)` can differ: it may cut a surrogate pair, which the model cannot. `trim` behaves the same on both, since every character it removes is in the Basic Multilingual Plane.
- `toLowerCase` is modelled on ASCII letters only.
- `Comments.TimeAgo`: timestamps and the clock are unbounded integers, so floating-point rounding of very large values is not modelled.
- `Store.MockStore.Register`: `avatarSeed` stands for `Math.floor(Math.random() * 1000)`, hence its bound.
