# A verified model of a Next.js blog and portfolio

The system is a personal site with a blog, a project portfolio and comments. Visitors read published
posts and projects, search the posts, follow an RSS feed and, once signed in, comment and reply.
Admins write posts and projects in a markdown editor, upload images, tag their work and moderate
comments and users. The server actions run against a PostgreSQL schema; this model describes them over
one in-memory `Schema.Database` object whose fields are tables (`seq` of rows). Each action is a method
that changes only the tables it names, and its `ensures` give the new tables as functions of the old.

Layout: one module per source file of the core, plus shared modules:

- `Wrappers`: `Option`, `ActionResult`, outcomes.
- `Seqs`, `Ordering`, `Grouping`: filters, the stable sort behind `ORDER BY`, the `Map` of lists.
- `Text`, `Zod`: JavaScript string operations and the schema checks.
- `Schema`, `Types`: rows, views, the database.
- `Session`: the authentication gates.

What the environment supplies becomes a parameter. This covers the clock, random suffixes and UUIDs,
the markdown renderer, the GitHub fetch, the full-text search engine and the browser's colour
preference.

The properties proved include:

- slugging is idempotent, the corrected post slug generator picks a slug no other post holds whenever
  its random suffix is fresh, and tag slugs stay unique;
- the pagination arithmetic and the page-number window;
- comment threads keep their order, and deletes cascade;
- notification inboxes hold one's own notifications, newest first;
- the rate limiter allows at most ten requests per window;
- Zod messages come in field order, and the upload checks;
- the editor's line toggles are inverses;
- the badge colour round-trips through its hexadecimal form, and the theme survives a reload.

## Model

| member | source | states |
|---|---|---|
| Comments.RowToCommentView | src/lib/actions/comments.ts:39-69 | copies the comment's columns, starts with no replies, and the author is the joined user exactly when the join found a user with a non-empty id, the "Deleted User" placeholder otherwise |
| Comments.SplitRows | src/lib/actions/comments.ts:96-111 | the first loop yields the top-level comments in row order and the map from parent id to its replies in row order |
| Comments.GroupComments | src/lib/actions/comments.ts:96-116 | the two loops together yield `Threads(rows)`: each top-level comment with the replies filed under its id, or none |
| Comments.GetComments | src/lib/actions/comments.ts:73-118 | `getComments` answers the grouped threads of the post's rows, oldest first, with their left-joined authors |
| Comments.SelectRowsSpec | src/lib/actions/comments.ts:75-94 | the select holds exactly the post's comments, each with its joined author, and is ordered by `createdAt` |
| Comments.ThreadsAreTopLevel | src/lib/actions/comments.ts:100-116 | the top level of the result is exactly the rows with a null parent, in row order |
| Comments.ReplyViews | src/lib/actions/comments.ts:105-110 | the reply list of an id names exactly the rows whose parent is that id, in row order, and no reply carries replies |
| Comments.RepliesOfThreads | src/lib/actions/comments.ts:113-116 | every top-level comment carries exactly its own replies, one level deep |
| Comments.OrphansDropped | src/lib/actions/comments.ts:113-116 | replies whose parent is not a top-level row of the post appear nowhere in the result |
| Comments.RepliesKeepOrder | src/lib/actions/comments.ts:94-109 | with rows in `createdAt` order each reply list is in `createdAt` order |
| Comments.ThreadsKeepOrder | src/lib/actions/comments.ts:94-116 | with rows in `createdAt` order the top level and every reply list are in `createdAt` order |
| Comments.NewComment | src/lib/actions/comments.ts:144-153 | the stored row: the caller as author, the given parent, not hidden, created now |
| Comments.CreateComment | src/lib/actions/comments.ts:126-180 | redirects an anonymous caller, returns the first validation message without writing, and otherwise appends exactly one top-level visible comment and no notification |
| Comments.ReplyNotices | src/lib/actions/comments.ts:234-245 | at most one notice; there is one exactly when the parent has a non-empty author other than the replier, and it is the `reply` notice to that author referring to the new reply |
| Comments.CreateReply | src/lib/actions/comments.ts:184-272 | unknown parent gives "Parent comment not found", a parent that is itself a reply gives "Cannot reply to a reply", neither writes; success appends exactly the reply and the notices of `ReplyNotices` |
| Comments.SetHidden | src/lib/actions/comments.ts:276-333 | the update sets the flag on every row with the id and leaves every other row as it was |
| Comments.SetHiddenOnlyFlag | src/lib/actions/comments.ts:276-333 | the flag is the only column the update changes; content and rendered content stay |
| Comments.HideThenUnhideRestores | src/lib/actions/comments.ts:276-333 | hiding a visible comment and unhiding it restores the table |
| Comments.SetHiddenIdempotent | src/lib/actions/comments.ts:276-333 | setting the flag twice is setting it once |
| Comments.AuthorNotices | src/lib/actions/comments.ts:291-363 | at most one notice, sent exactly when the comment has a non-empty author, with the given kind, message and reference |
| Comments.HideComment | src/lib/actions/comments.ts:276-308 | admin gate; "Comment not found" without change for an unknown id; otherwise sets the flag and sends `comment_hidden` with the comment id to its author |
| Comments.UnhideComment | src/lib/actions/comments.ts:312-331 | admin gate; "Comment not found" without change for an unknown id; otherwise clears the flag and never writes a notification |
| Comments.RemoveThreadExactly | src/lib/actions/comments.ts:350-351 | a row survives the two deletes exactly when it is neither the target nor a direct reply to it |
| Comments.RemoveThreadCount | src/lib/actions/comments.ts:350-351 | the deletes remove exactly as many rows as are the target or its direct replies |
| Comments.DeleteExamples | src/lib/actions/comments.ts:350-351 | deleting a top-level comment with two replies removes three rows; deleting one of the replies removes one |
| Comments.DeleteComment | src/lib/actions/comments.ts:335-369 | admin gate; "Comment not found" without change; otherwise removes the thread and sends one `comment_deleted` notice with a null reference to an existing author only |
| Comments.ReplyKeepsOneLevel | src/lib/actions/comments.ts:199-232 | appending a reply whose parent exists and is top level keeps every thread one level deep |
| Comments.DeleteKeepsOneLevel | src/lib/actions/comments.ts:348-351 | deleting a thread keeps every surviving reply's parent present and top level |
| Notifications.GetNotifications | src/lib/actions/notifications.ts:13-43 | redirects an anonymous caller to the login page and otherwise answers the caller's inbox |
| Notifications.InboxIsOwnNewestFirst | src/lib/actions/notifications.ts:17-37 | a view is in the inbox exactly when it is the view of one of the caller's rows, and the inbox is newest first |
| Notifications.InboxOwn | src/lib/actions/notifications.ts:27 | every inbox entry comes from one of the caller's rows |
| Notifications.InboxComplete | src/lib/actions/notifications.ts:27 | every row of the caller is in the inbox |
| Notifications.InboxSorted | src/lib/actions/notifications.ts:28 | the inbox is ordered by `createdAt` descending |
| Notifications.GetUnreadCount | src/lib/actions/notifications.ts:47-65 | redirects an anonymous caller, otherwise answers the number of the caller's rows with `read = false` |
| Notifications.UnreadAtMostInbox | src/lib/actions/notifications.ts:51-61 | the unread count never exceeds the size of the inbox |
| Notifications.SetRead | src/lib/actions/notifications.ts:69-104 | the update sets `read` on exactly the selected rows and leaves the others as they were |
| Notifications.MarkRead | src/lib/actions/notifications.ts:69-88 | redirects an anonymous caller; otherwise succeeds and sets `read` only on the row with that id owned by the caller (an unknown or foreign id changes nothing) |
| Notifications.MarkAllRead | src/lib/actions/notifications.ts:92-111 | redirects an anonymous caller; otherwise succeeds and sets `read` on the caller's unread rows |
| Notifications.MarkReadScoped | src/lib/actions/notifications.ts:75-81 | only the flag changes, other users' rows and the caller's other rows are untouched, and the target row ends up read |
| Notifications.MarkAllReadScoped | src/lib/actions/notifications.ts:98-104 | only the flag changes and other users' rows are untouched |
| Notifications.MarkAllReadClearsCount | src/lib/actions/notifications.ts:96-104 | after `markAllRead` the caller's unread count is 0 |
| Notifications.SetReadIdempotent | src/lib/actions/notifications.ts:73-81 | marking read twice is marking read once |
| Notifications.MarkAllReadIdempotent | src/lib/actions/notifications.ts:96-104 | `markAllRead` twice is `markAllRead` once |
| Admin.GetUsers | src/lib/actions/admin.ts:11-40 | the admin gate, then every user as a view, newest first |
| Admin.UserListIsAllNewestFirst | src/lib/actions/admin.ts:15-34 | the list holds every user exactly as often as the table does and is ordered by `createdAt` descending |
| Admin.SetRole | src/lib/actions/admin.ts:62-65 | the update sets the role of the rows with the target id and leaves the others as they were |
| Admin.SetUserRole | src/lib/actions/admin.ts:42-82 | anonymous callers are redirected, a signed-in non-admin gets "Unauthorized" thrown, an admin targeting themself gets "Cannot change your own role" and an unknown id "User not found" without change; success sets the role and appends exactly one `role_changed` notice |
| Admin.SetRoleOnlyTarget | src/lib/actions/admin.ts:62-65 | only the role column of the target's rows changes, and it takes the new role even when it was already equal |
| Admin.RoleNoticeText | src/lib/actions/admin.ts:67-75 | the message is "Your role has been changed to " followed by the role, and the reference is null |
| CommentList.BadgeLetter | src/components/blog/comment-list.tsx:17 | one character: the upper-cased first character of a non-empty name, else of a non-empty email, else `?` |
| CommentList.CardOf | src/components/blog/comment-list.tsx:10-55 | a hidden comment shows `[removed]` instead of its rendered content, only a top-level card has a reply form (for its own id), the name falls back to "Anonymous", and the avatar is the picture exactly when the author has an image |
| CommentList.ListingOf | src/components/blog/comment-list.tsx:62-87 | an empty list is the "No comments yet" message, and a non-empty one has one entry per comment |
| CommentList.ListingLayout | src/components/blog/comment-list.tsx:73-84 | each entry has the comment's anchor and its top-level card; the reply block is there exactly when the comment has replies, and holds their cards in order, none with a reply form |
| CommentValidators.ParseComment | src/lib/validators/comment.ts:3-9 | accepts exactly a non-empty post id and content of 1 to 5000 UTF-16 units, and reports the first failing rule's message |
| CommentValidators.ParseReply | src/lib/validators/comment.ts:11-18 | the same with a non-empty parent id in addition and the reply wording of the messages |
| CommentValidators.ReplyIsCommentPlusParent | src/lib/validators/comment.ts:3-18 | a reply is acceptable exactly when the same post id and content make an acceptable comment and the parent id is non-empty |
| Zod.JsLength | src/lib/validators/comment.ts:7-8 | the UTF-16 length that `.min`/`.max` compare: zero exactly for the empty string, between one and two units per character |
| Zod.Check | src/lib/validators/comment.ts:4-8 | one check yields no issue when it passes and exactly its own message when it fails |
| Zod.TrimField | src/lib/validators/post.ts:12-17 | `.trim()` on an optional field keeps absence and null and trims a present value |
| Zod.HeadOfConcat | src/lib/validators/comment.ts:3-9 | the first issue of a field chain is the first failing check's |
| Sanitize.CommentSchema | src/lib/markdown/sanitize.ts:3-13 | every other field is copied from the default; the tag list is the default's plus the ten added tags; `pre`, `span` and `code` get their extra attributes in front of the defaults; `*` becomes exactly `className`; every other attribute entry is inherited unchanged |
| Sanitize.TagsWiden | src/lib/markdown/sanitize.ts:12 | a tag is allowed exactly when the default allows it or it is one of the ten added tags |
| Sanitize.CodeAttributesWiden | src/lib/markdown/sanitize.ts:7-9 | every attribute the default allows on `pre`, `span` or `code` is still allowed there |
| Sanitize.GlobalEntryReplaced | src/lib/markdown/sanitize.ts:10 | a global attribute the default allows (such as `id`) is dropped, not merged |
| Slug.CollapseChars | src/lib/actions/posts.ts:20 | collapsing separator runs adds no character but the dash and leaves no white space or underscore behind |
| Slug.CollapseRun | src/lib/actions/posts.ts:20 | a whole run of separators, however long, becomes a single dash |
| Slug.CollapseTwoWords | src/lib/actions/posts.ts:20 | two separator-free words with a separator run between them are joined by exactly one dash |
| Slug.DropLeadingDashes | src/lib/actions/posts.ts:21 | the result is a suffix of the input that does not start with a dash, and everything removed was a dash |
| Slug.DropTrailingDashes | src/lib/actions/posts.ts:21 | the result is a prefix of the input that does not end with a dash, and everything removed was a dash |
| Slug.StripDashes | src/lib/actions/posts.ts:21 | the result has no dash at either end and no character the input lacks |
| Slug.ToSlug | src/lib/actions/posts.ts:15-22 | every slug is made of lower-case letters, digits and dashes only and has no dash at either end |
| Slug.ToSlugStages | src/lib/actions/posts.ts:15-22 | the slug is the five steps in the source's order: lower-case, trim, drop characters outside `[\w\s-]`, collapse separator runs, strip end dashes |
| Slug.SlugIsFixedPoint | src/lib/actions/posts.ts:15-22 | a string that already is a slug is its own slug |
| Slug.ToSlugIdempotent | src/lib/actions/posts.ts:15-22 | slugifying a slug changes nothing |
| Slug.JoinsWords | src/lib/actions/posts.ts:15-22 | two words with white space between them give the two lower-cased words joined by one dash |
| Slug.TrimsPadding | src/lib/actions/posts.ts:16-18 | white space around a single word is trimmed away |
| Slug.DropsUnkept | src/lib/actions/posts.ts:19 | a character outside `[\w\s-]` inside a title with non-blank ends is dropped without a trace |
| Slug.DropsTrailingUnkept | src/lib/actions/posts.ts:19 | the same for such a character at the end of the title |
| Posts.ChooseSlugAsWritten | src/lib/actions/posts.ts:28-39 | the code as written keeps the base slug or appends the random suffix to it, nothing else |
| Posts.GenerateUniqueSlugAsWritten | src/lib/actions/posts.ts:24-40 | `generateUniqueSlug` as written gives the title's slug or that slug with the suffix |
| Posts.ChooseSlug | src/lib/actions/posts.ts:28-39 | the intended choice: the base slug is kept exactly when every post already holding it is the excluded one, and the suffix is added otherwise |
| Posts.GenerateUniqueSlug | src/lib/actions/posts.ts:24-40 | the title's slug is kept exactly when no post other than the excluded one holds it |
| Posts.GeneratedSlugIsFree | src/lib/actions/posts.ts:24-40 | when no post holds the suffixed slug, no post but the excluded one holds the chosen slug |
| Posts.ChooseAgreesWithoutExclusion | src/lib/actions/posts.ts:33 | with no `excludeId` the filter as written is the intended one |
| Posts.UniqueSlugAgreesWithoutExclusion | src/lib/actions/posts.ts:24-40 | so `createPost`, which passes none, gets a slug no other post holds |
| Posts.ChooseExclusionFinding | src/lib/actions/posts.ts:33 | with an `excludeId`, another post holding the base slug is ignored by the code as written but leads to the suffix when intended |
| Posts.UniqueSlugExclusionFinding | src/lib/actions/posts.ts:24-40 | with an `excludeId`, the code as written returns a slug another post already holds |
| Posts.NextSlug | src/lib/actions/posts.ts:389-404 | `updatePost` keeps the current slug unless a non-empty title slugs to something else, which is taken when no other post holds it and suffixed when one does |
| Posts.NextSlugIsUniqueSlug | src/lib/actions/posts.ts:389-404 | that inline rule is the intended unique-slug choice with the post itself excluded |
| Posts.NextPublishedAt | src/lib/actions/posts.ts:406-409 | a set publication time is never changed; an unset one becomes `now` exactly when the new status is published |
| Posts.InitialPublishedAt | src/lib/actions/posts.ts:310 | a post created published is published now, otherwise unpublished, which is the update rule applied to an unset time |
| Posts.PublishedAtNeverCleared | src/lib/actions/posts.ts:515-520 | over any sequence of status changes a set time survives, and an unset one gets set exactly when some change publishes |
| Posts.RowToPostView | src/lib/actions/posts.ts:65-89 | every post column is copied, the tags and comment count are the given ones, and a missing author becomes the empty user block with role `user` and time 0 |
| Posts.Joined | src/lib/actions/posts.ts:104-105 | every joined row pairs an existing link with the tag it names |
| Posts.TagsOfRestricted | src/lib/actions/posts.ts:93-119 | restricting the join to the asked posts leaves each asked post's tags, in link order |
| Posts.GroupTags | src/lib/actions/posts.ts:108-118 | the loop builds exactly the grouping of the join rows by post, keeping row order inside each group |
| Posts.FetchTagsForPosts | src/lib/actions/posts.ts:93-119 | no ids give the empty map; otherwise every asked post is mapped to its own tags, in link order |
| Posts.GetPostById | src/lib/actions/posts.ts:541-585 | "Post not found" exactly when no post has the id; otherwise the view of that post with its tags and count of visible comments |
| Posts.GetPost | src/lib/actions/posts.ts:123-175 | a missing slug, or a post that is not published asked by a non-admin, is "Post not found"; an answer always has the asked slug and is published unless the reader is an admin |
| Posts.Selected | src/lib/actions/posts.ts:198-226 | a post is counted exactly when it passes the visibility, status and tag conditions |
| Posts.ItemsAreViews | src/lib/actions/posts.ts:271-274 | the items are the views of the page's rows with their fetched tags |
| Posts.GetPosts | src/lib/actions/posts.ts:187-283 | the answer is the page the listing rules define (an empty page for a tag with no posts) |
| Posts.WindowIsListed | src/lib/actions/posts.ts:241-269 | every post on a page passes the listing's conditions |
| Posts.PageIsVisible | src/lib/actions/posts.ts:198-226 | every item is a listed post; a non-admin sees only published ones, an admin with a status filter only that status, and with a tag filter only posts carrying the tag |
| Posts.PageCounts | src/lib/actions/posts.ts:194-234 | page and size are the clamped ones, a page holds at most `pageSize` items, the total counts only existing posts, and `totalPages` is the ceiling of total over size |
| Posts.PageIsOrdered | src/lib/actions/posts.ts:236-240 | items come newest first, or oldest first when asked |
| Posts.NonAdminIgnoresStatus | src/lib/actions/posts.ts:200-204 | a non-admin's page is the same whatever status filter is passed |
| Posts.AdminSeesAll | src/lib/actions/posts.ts:200-204 | an admin with no status and no tag filter counts every post |
| Posts.Assign | src/lib/actions/posts.ts:420-421 | a field left out keeps the column, `null` clears it, a value sets it |
| Posts.ApplyChange | src/lib/actions/posts.ts:411-428 | an update never touches the id, author and creation time, and always sets `updatedAt` |
| Posts.UpdatePosts | src/lib/actions/posts.ts:425-428 | the rows with the id are changed and all others are left as they were |
| Posts.FindUpdated | src/lib/actions/posts.ts:444 | after the update the post read back by its id is the changed one |
| Posts.UpdateChange | src/lib/actions/posts.ts:389-423 | each given field is written (content with its rendering), every other column is kept, the slug and publication time follow their rules, and `updatedAt` is now |
| Posts.ReplaceTagsExactly | src/lib/actions/posts.ts:430-437 | given `tagIds` leave the post with exactly those links, in order, and every other post's links alone |
| Posts.NewPost | src/lib/actions/posts.ts:308-325 | the inserted row holds the parsed fields, the rendering, the slug, the admin as author, `now` twice and the initial publication time |
| Posts.CreatePost | src/lib/actions/posts.ts:296-346 | a non-admin is redirected and invalid input gets the first issue, both with nothing written; otherwise the post and its links are appended and the new post's view is answered |
| Posts.InsertPost | src/lib/actions/posts.ts:312-342 | the row and its links are appended, and a fresh id reads back as the new post |
| Posts.FindAppended | src/lib/actions/posts.ts:337 | a fresh id is found at the row just appended |
| Posts.UpdatePost | src/lib/actions/posts.ts:359-453 | redirect, missing id, invalid input and missing post each answer their error with nothing written; otherwise exactly the described update and tag replacement happen and the updated view is answered |
| Posts.StoreUpdate | src/lib/actions/posts.ts:425-449 | the writes and the read-back of `updatePost` |
| Posts.StatusChange | src/lib/actions/posts.ts:518-521 | the update sets only status, publication time and `updatedAt` |
| Posts.ChangePostStatus | src/lib/actions/posts.ts:488-537 | redirect, missing id and missing post each answer their error with nothing written; otherwise only the status, publication time and `updatedAt` of the post change and its view is answered |
| Posts.DeletePost | src/lib/actions/posts.ts:457-484 | redirect, missing id and missing post write nothing; otherwise the post, its tag links and its comments are gone and nothing else |
| Paging.ClampPage | src/lib/actions/posts.ts:194 | the page is the asked one when it is at least 1, and 1 otherwise |
| Paging.ClampPageSize | src/lib/actions/posts.ts:195 | the size lies in 1..100, is the asked one inside that range, the nearer bound outside it, and the default when none is asked |
| Paging.CeilDiv | src/lib/actions/posts.ts:234 | the fewest pages of the size that hold the total, zero exactly for no items |
| Paging.Window | src/lib/actions/posts.ts:268-269 | at most `size` rows, the ones starting at `(page - 1) * size`, in order |
| Paging.WindowSorted | src/lib/actions/posts.ts:236-269 | a window of an ordered listing is ordered |
| PostValidators.TagIdIssues | src/lib/validators/post.ts:29-30 | no issue exactly when every tag id is non-empty, and each issue is Zod's default minimum message |
| PostValidators.CreateIssuesSpec | src/lib/validators/post.ts:3-33 | the create schema reports no issue exactly when every field rule holds, and otherwise its first issue is the first failing rule's message in field order |
| PostValidators.ParseCreatePost | src/lib/validators/post.ts:3-33 | valid exactly when the title has 1 to 255 UTF-16 units, the content is non-empty, the excerpt has at most 500, the cover is an upload path or a URL and every tag id is non-empty; then title and excerpt are trimmed, status defaults to draft and tag ids to none |
| PostValidators.UpdateData | src/lib/validators/post.ts:35-66 | the parsed update trims a given title and excerpt, passes every other field through, and adds no default |
| PostValidators.ParseUpdatePost | src/lib/validators/post.ts:35-66 | each create rule applies only to the fields that are given, no issue means the parsed update, and a refusal's first issue is the message of the first failing rule in field order |
| PostValidators.ParseChangeStatus | src/lib/validators/post.ts:68-71 | valid exactly for a non-empty post id, else the one issue "Post ID is required" |
| PostValidators.EmptyUpdateIsValid | src/lib/validators/post.ts:35-66 | the empty update is valid and sets no field |
| PostValidators.EmptyTitleOrContentRejected | src/lib/validators/post.ts:6-11 | an empty title or empty content is refused on create |
| PostValidators.NullFieldsAccepted | src/lib/validators/post.ts:12-32 | a null excerpt and cover pass and stay null, the status defaults to draft and the tag ids to the empty list |
| PostValidators.UploadedCoverAccepted | src/lib/validators/post.ts:21 | every path under `/api/uploads/` is an acceptable cover image |
| PostValidators.NotAUrlRejected | src/lib/validators/post.ts:20-23 | a cover that is neither a URL nor an upload path is refused |
| Projects.ChooseProjectSlug | src/lib/actions/projects.ts:24-40 | the base slug is kept exactly when every project holding it is the excepted one, and gets the random suffix otherwise |
| Projects.UniqueProjectSlug | src/lib/actions/projects.ts:24-40 | `createProject`'s slug is the title's slug exactly when no project holds it, and that slug with the suffix otherwise |
| Projects.NextProjectSlug | src/lib/actions/projects.ts:384-397 | the current slug is kept unless a non-empty title slugs to something else, which is then chosen with the project itself excepted |
| Projects.NewSlug | src/lib/actions/projects.ts:384-397 | the slug steps of `updateProject` compute that slug |
| Projects.SegmentEnd | src/lib/actions/projects.ts:53 | `[^/]+` stops at the first '/' or at the end |
| Projects.FirstFromLeast | src/lib/actions/projects.ts:53 | the search for the least matching position finds one exactly when one exists, and none before it matches |
| Projects.FindMatchLeftmost | src/lib/actions/projects.ts:53 | `String.match` without the global flag takes the leftmost match, and finds nothing only when the pattern matches nowhere |
| Projects.StripGitSuffix | src/lib/actions/projects.ts:59 | a trailing `.git` is removed and any other name is kept |
| Projects.ParseGithubUrl | src/lib/actions/projects.ts:53-59 | a link is parsed exactly when the pattern matches, and the owner is then a non-empty run without '/' |
| Projects.ParsedIffMatch | src/lib/actions/projects.ts:53-56 | "Invalid GitHub URL format" exactly when the pattern matches at no position |
| Projects.NoHostNoRepo | src/lib/actions/projects.ts:53-56 | a link without `github.com/` in it is never parsed |
| Projects.NoHostInScheme | src/lib/actions/projects.ts:53 | in a link starting `https://` the host cannot start inside the scheme |
| Projects.MatchAfterScheme | src/lib/actions/projects.ts:53 | a match right after `https://` is the leftmost one |
| Projects.GithubUrlParses | src/lib/actions/projects.ts:44-59 | the documented shapes `https://github.com/owner/repo`, with or without `.git` and with any path after it, give that owner and the repository without `.git` |
| Projects.ParsesAfterPrefix | src/lib/actions/projects.ts:53-59 | the same for any link that splits into the scheme, the host and the two segments |
| Projects.ReadmeFromResponse | src/lib/actions/projects.ts:71-85 | the body exactly for a 2xx response; 404 and other statuses get their own messages and an exception its message or the fallback |
| Projects.FetchGithubReadme | src/lib/actions/projects.ts:48-86 | an unparsed link is refused before any request; otherwise the answer is what the response to the README API URL of that repository gives |
| Projects.RowToProjectView | src/lib/actions/projects.ts:111-140 | the README is rendered exactly when a non-empty one is cached, every column is copied, and the author block is the joined author with its defaults |
| Projects.GetProject | src/lib/actions/projects.ts:165-185 | "Project not found" exactly when no project has the slug, whatever its status; otherwise the first such project's view |
| Projects.GetProjectById | src/lib/actions/projects.ts:189-208 | "Project not found" exactly when no project has the id, otherwise that project's view |
| Projects.SelectedProjects | src/lib/actions/projects.ts:228-232 | a project is counted exactly when it is published, or, in the admin view, when it has the asked status or none is asked |
| Projects.GetProjects | src/lib/actions/projects.ts:220-265 | the answer is the page the listing rules define |
| Projects.ProjectPageIsVisible | src/lib/actions/projects.ts:228-256 | outside the admin view only published projects appear; in it only the asked status; every item is a project's view |
| Projects.ProjectPageCounts | src/lib/actions/projects.ts:224-240 | page at least 1, size 1..100 with 12 by default, at most a page of items, and `totalPages` the ceiling of total over size |
| Projects.AdminViewCountsAll | src/lib/actions/projects.ts:228-231 | the admin view with no status filter counts every project |
| Projects.ProjectPageIsOrdered | src/lib/actions/projects.ts:242-245 | newest first, or oldest first when asked |
| Projects.CreateReadme | src/lib/actions/projects.ts:295-304 | a README is cached, stamped now, exactly when a non-empty GitHub link fetched successfully |
| Projects.CreateProject | src/lib/actions/projects.ts:278-337 | a non-admin is redirected and invalid input gets the first issue, nothing written; otherwise exactly the new row with its slug, README cache and author is appended, with no product link since the schema drops it, and its view answered |
| Projects.CreateProjectIntended | src/lib/actions/projects.ts:278-337 | the same guards and insert, with the product link given stored in the new row |
| Projects.Assign | src/lib/actions/projects.ts:404-407 | a field left out keeps the column, `null` clears it, a value sets it |
| Projects.SetListRule | src/lib/actions/projects.ts:399-427 | writing the `SET` list gives exactly the field-wise update rules, and never changes id, author or creation time |
| Projects.UpdateValues | src/lib/actions/projects.ts:399-422 | the `SET` list holds every given field, the slug, `updatedAt` and the README columns |
| Projects.ReadmeValues | src/lib/actions/projects.ts:409-422 | a given link is written; an empty one clears the cache, a non-empty one caches a successful fetch stamped now and leaves the cache alone on failure |
| Projects.UpdateProject | src/lib/actions/projects.ts:350-445 | redirect, missing id, invalid input and missing project write nothing and answer their error; otherwise only that project changes, by the update rules with the product link left as it was, and its view is answered |
| Projects.UpdateProjectIntended | src/lib/actions/projects.ts:350-445 | the same guards and update rules, with a given product link written |
| Projects.StoreProjectChange | src/lib/actions/projects.ts:424-438 | the write changes only the project with the id and the read-back is its updated view |
| Projects.RefreshProjectReadme | src/lib/actions/projects.ts:449-500 | missing id, missing project, no GitHub link and a failing fetch each answer their error with nothing written; otherwise the cache is replaced and stamped now |
| Projects.ReadmeRefresh | src/lib/actions/projects.ts:481 | the refresh writes only the README, its time and `updatedAt` |
| Projects.DeleteProject | src/lib/actions/projects.ts:504-533 | redirect, missing id and missing project write nothing; otherwise exactly the rows with the id are removed |
| ProjectValidators.OptionalIssues | src/lib/validators/project.ts:9-25 | no issue exactly when the description has at most 1000 UTF-16 units, the GitHub link is a URL starting `https://github.com/` and the image link is a URL, each only when given |
| ProjectValidators.CreateIssuesHead | src/lib/validators/project.ts:3-29 | the first issue is the first failing rule's message in field order, and a GitHub link failing both rules reports the URL rule first |
| ProjectValidators.ParseCreateProject | src/lib/validators/project.ts:3-29 | valid exactly when the title has 1 to 255 units and the optional rules hold; the title and description are then trimmed, the status defaults to draft, and the product link is dropped because the schema does not declare it |
| ProjectValidators.ParseUpdateProject | src/lib/validators/project.ts:31-58 | each rule applies only to given fields; the parsed update trims a given title and description, adds no default and drops the product link; a refusal's first issue is the message of the first failing rule in field order |
| ProjectValidators.ParseCreateProjectKeepingProductUrl | src/lib/validators/project.ts:3-29 | the intended create schema: the same verdict and data, with the product link kept |
| ProjectValidators.ParseUpdateProjectKeepingProductUrl | src/lib/validators/project.ts:31-58 | the intended update schema: the same verdict and data, with the product link kept |
| ProjectValidators.EmptyProjectUpdateIsValid | src/lib/validators/project.ts:31-58 | the empty update is valid and sets nothing |
| ProjectValidators.ProductUrlDropped | src/lib/validators/project.ts:3-58 | a product link given to either schema never reaches the parsed data |
| Tags.GetTags | src/lib/actions/tags.ts:21-48 | every tag once, in table order, with its own columns and the number of post links naming it |
| Tags.CountIsFilter | src/lib/actions/tags.ts:29-33 | the `count` of the left join is the number of links that name the tag |
| Tags.GetTagBySlug | src/lib/actions/tags.ts:50-83 | "Tag not found" exactly when no tag has the slug; otherwise the view, with its post count, of a tag holding the slug |
| Tags.InsertKeepsValid | src/lib/actions/tags.ts:97-113 | adding a tag with a fresh id and a slug no tag holds keeps ids and slugs unique |
| Tags.RenameTag | src/lib/actions/tags.ts:163-166 | the tag with the id gets the new name, slug and colour and every other tag is unchanged |
| Tags.RenameKeepsValid | src/lib/actions/tags.ts:152-166 | renaming to its own slug or to one no tag holds keeps ids and slugs unique |
| Tags.CreateTag | src/lib/actions/tags.ts:85-125 | a non-admin is redirected and invalid input gets the first issue; a slug already held gets the "already exists" message; otherwise exactly the new tag is appended and answered with a post count of 0; unique ids and slugs are preserved |
| Tags.UpdateTag | src/lib/actions/tags.ts:127-178 | invalid input, an unknown tag and a changed slug another tag holds each answer their error with nothing written; otherwise only that tag changes; unique ids and slugs are preserved |
| Tags.DeleteTag | src/lib/actions/tags.ts:180-206 | missing id and unknown tag write nothing; otherwise the tag and every link to it are removed (`ON DELETE CASCADE`) and nothing else |
| Tags.RemoveKeepsValid | src/lib/actions/tags.ts:197 | removing tags keeps ids and slugs unique |
| Tags.DeleteCascades | src/lib/db/schema.ts:105 | after the cascade no link names the tag, and every link to another tag is still there |
| TagValidators.ParseCreateTag | src/lib/validators/tag.ts:18-27 | valid exactly when the name has 1 to 50 UTF-16 units before trimming and the colour is `#` and six hexadecimal digits; the name is then trimmed; otherwise the first failing rule's message |
| TagValidators.ParseUpdateTag | src/lib/validators/tag.ts:29-39 | the same with a non-empty tag id checked first |
| TagValidators.UpdateExtendsCreate | src/lib/validators/tag.ts:18-39 | the update schema accepts exactly what the create schema accepts plus a non-empty id, with the same trimmed name |
| TagValidators.PaletteIsValid | src/lib/validators/tag.ts:3-16 | every palette colour and the default colour pass the colour rule |
| TagValidators.BadTagRejected | src/lib/validators/tag.ts:21-26 | an empty name or a colour not starting with `#` is refused |
| TagBadge.HexValue | src/components/blog/tag-badge.tsx:13-15 | the value of one hexadecimal digit of either case is below 16 |
| TagBadge.ByteValue | src/components/blog/tag-badge.tsx:13-15 | `parseInt` of two digits is below 256 |
| TagBadge.ColorDigits | src/components/blog/tag-badge.tsx:10 | the pattern matches exactly six hexadecimal digits with or without a leading `#`, and captures those six |
| TagBadge.HexToRgb | src/components/blog/tag-badge.tsx:9-18 | channels exactly when the pattern matches, each below 256 |
| TagBadge.ValidatedColorsParse | src/components/blog/tag-badge.tsx:9-18 | every colour the tag schemas accept can be read by the badge |
| TagBadge.HexDigit | src/components/blog/tag-badge.tsx:13-15 | the digit of a value below 16 reads back as that value |
| TagBadge.ByteHex | src/components/blog/tag-badge.tsx:13-15 | two digits that read back as the channel |
| TagBadge.HexToRgbInverts | src/components/blog/tag-badge.tsx:9-18 | reading a colour written as `#rrggbb` gives back its channels |
| TagBadge.ContrastColor | src/components/blog/tag-badge.tsx:20-25 | black for an unreadable colour, otherwise black exactly when the weighted luminance is over one half as the browser computes it in doubles (the exact test, plus `#da3af8`, which sits on the boundary and rounds above it), else white |
| TagBadge.LightnessMonotone | src/components/blog/tag-badge.tsx:23-24 | brightening a channel never turns light into dark; white is light and black is dark |
| TagBadge.TagBadge | src/components/blog/tag-badge.tsx:27-49 | the badge shows the name on the tag's colour or the fallback, with the contrasting text colour, and links to `/?tag=<slug>` exactly when asked |
| TagBadge.FallbackReadable | src/components/blog/tag-badge.tsx:28 | the fallback grey is a colour the badge can read |
| Register.Contains | src/lib/auth/register.ts:9-10 | `/[A-Z]/.test` and `/[0-9]/.test`: true exactly when some character has the property |
| Register.ValidatePassword | src/lib/auth/register.ts:7-12 | no message exactly when the password has at least 8 UTF-16 units, an upper-case letter and a digit; otherwise the message of the first rule in the source's order that fails |
| Register.EmailPatternGivesShape | src/lib/auth/register.ts:14-16 | an address the pattern accepts has no white space, exactly one '@', not first, and a '.' later in the domain that is neither its first nor its last character |
| Register.EmailShapeGivesPattern | src/lib/auth/register.ts:14-16 | conversely, any address of that shape is accepted |
| Register.EmailPatternIsShape | src/lib/auth/register.ts:14-16 | the pattern accepts exactly the addresses of that shape |
| Register.NoAtNoEmail | src/lib/auth/register.ts:15 | an address without '@' is refused |
| Register.FirstUserRole | src/lib/auth/register.ts:36-37 | as intended: the new user is an admin exactly when no user exists yet |
| Register.DriverCount | src/lib/db/index.ts:1-13 | on the postgres-js driver `count(*)` comes back as the decimal text of the row count |
| Register.RoleFromCount | src/lib/auth/register.ts:36-37 | the role test as written gives admin exactly for the number 0 |
| Register.FirstUserRoleAsWritten | src/lib/auth/register.ts:36-37 | with the driver's text count, the test as written gives the role user even on an empty table |
| Register.RegistrationKeepsEmailsUnique | src/lib/auth/register.ts:32-41 | adding a user whose email no user has keeps emails unique |
| Register.RegisterUser | src/lib/auth/register.ts:18-44 | a bad email, then a bad password, then a taken email each answer their message and write nothing; registration succeeds exactly when all three pass, and then appends exactly one user with the intended first-user role (see the findings) and answers its id and role |
| Search.CleanWord | src/lib/actions/search.ts:30 | the cleaned word keeps exactly the word's ASCII letters, digits and CJK ideographs, and nothing else |
| Search.ConsShape | src/lib/actions/search.ts:32 | putting one operand in front of a well-formed conjunction with " & " gives a well-formed conjunction |
| Search.JoinShape | src/lib/actions/search.ts:32 | joining operands with " & " gives a well-formed conjunction, empty exactly when there are no operands |
| Search.TermsAreTerms | src/lib/actions/search.ts:26-31 | every operand is non-empty and made of kept characters only |
| Search.TsQueryShape | src/lib/actions/search.ts:26-34 | the query handed to `to_tsquery` is always well formed: kept characters joined by " & ", never an empty operand or a stray '&' |
| Search.BlankQueryHasNoTerms | src/lib/actions/search.ts:23 | a blank query has no operands |
| Search.WordsFrom | src/lib/actions/search.ts:28 | the pieces of `split(/\s+/)` hold only characters of the input |
| Search.NothingKeptNoQuery | src/lib/actions/search.ts:30-34 | a query with no kept character gives the empty conjunction, so the search answers nothing |
| Search.SearchAuthor | src/lib/actions/search.ts:58-100 | a post whose author is known gets that user's block; a post without one, or with an unknown one, gets the "Unknown" author |
| Search.HitsAre | src/lib/actions/search.ts:36-54 | at most 20 hits, each a published post that matches, best score first |
| Search.SearchResultsAre | src/lib/actions/search.ts:89-113 | nothing for an empty conjunction; otherwise one result per hit, in order, with the hit's id, score, author and tags |
| Search.SameResults | src/lib/actions/search.ts:78-111 | reading tags through the grouped map gives each post its own tags |
| Search.SearchPosts | src/lib/actions/search.ts:22-119 | a blank query answers the empty list; every answer is the results the search rules define |
| Feed.ReplaceAll | src/app/feed.xml/route.ts:8 | a global replace leaves no occurrence of the character unless the replacement holds it, and adds only characters of the input or the replacement |
| Feed.ReplaceAllConcat | src/app/feed.xml/route.ts:8 | a global replace works piece by piece |
| Feed.ReplaceAllAbsent | src/app/feed.xml/route.ts:8 | replacing a character that does not occur changes nothing |
| Feed.EntitiesAreReplacements | src/app/feed.xml/route.ts:8 | the later replacements cannot touch the entities the earlier ones wrote |
| Feed.ChainOfOne | src/app/feed.xml/route.ts:7-9 | the three replacements in sequence turn one character into its own escape |
| Feed.ChainConcat | src/app/feed.xml/route.ts:7-9 | the chain works piece by piece |
| Feed.ChainIsOnePass | src/app/feed.xml/route.ts:7-9 | the chain of three global replaces equals escaping each character once, so nothing is escaped twice |
| Feed.EscapeIsOnePass | src/app/feed.xml/route.ts:7-9 | `escapeXml` escapes each character exactly once |
| Feed.NoAngleBrackets | src/app/feed.xml/route.ts:7-9 | an escaped title holds no '<' or '>' |
| Feed.AmpersandsBeginEntities | src/app/feed.xml/route.ts:7-9 | every '&' of the one-pass escape begins one of the three entities |
| Feed.EscapedAmpersands | src/app/feed.xml/route.ts:7-9 | every '&' of an escaped title begins an entity |
| Feed.EntitiesDecodable | src/app/feed.xml/route.ts:8 | the three entities start with '&' and are told apart by their second character |
| Feed.UnescapeStep | src/app/feed.xml/route.ts:7-9 | decoding an escaped character gives it back and leaves the rest to decode |
| Feed.UnescapeEachWith | src/app/feed.xml/route.ts:7-9 | decoding the one-pass escape gives back the input |
| Feed.UnescapeInverts | src/app/feed.xml/route.ts:7-9 | an XML reader recovers the exact title from the escaped one |
| Feed.PlainTextUnchanged | src/app/feed.xml/route.ts:7-9 | text without '&', '<' and '>' is left as it is |
| Feed.ItemOf | src/app/feed.xml/route.ts:36-50 | link and guid are `<base>/posts/<slug>`, the title is escaped, the description is the excerpt or the first 200 characters of the content, the author falls back to "ChaKyiu", and the date is empty when unpublished |
| Feed.DescriptionBounded | src/app/feed.xml/route.ts:40 | without an excerpt the description has at most 200 characters |
| Feed.FeedPostsArePublished | src/app/feed.xml/route.ts:19-33 | at most 20 rows, each a published post |
| Feed.DatedAfterUndated | src/app/feed.xml/route.ts:32 | in `publishedAt DESC` order no undated row comes after a dated one and dated rows are newest first |
| Feed.FeedPostsAre | src/app/feed.xml/route.ts:19-33 | the feed's rows are at most 20 published posts, dated ones newest first |
| Feed.FeedItemsAre | src/app/feed.xml/route.ts:15-52 | each item belongs to a published post, links to its slug under the base URL and carries its escaped title |
| Upload.ExtensionForAllowedTypes | src/app/api/upload/route.ts:10-15 | the extension table covers exactly the allowed image types, so an accepted file always gets an extension |
| Upload.Refusal | src/app/api/upload/route.ts:18-40 | the guards in the source's order: 401 without a signed-in user, 403 for a non-admin, 400 without a file, for a type outside the allowed four and for more than 5 MB; nothing is refused when all pass |
| Upload.SizeLimitInclusive | src/app/api/upload/route.ts:38 | a file of exactly 5 MB is accepted and one byte more is refused |
| Upload.StoredName | src/app/api/upload/route.ts:43 | the stored name is the UUID, a dot and the extension |
| Upload.UploadImage | src/app/api/upload/route.ts:17-60 | a refused upload answers its status and message and writes nothing; an accepted one records exactly one image row owned by the admin and answers `/api/uploads/<name>` |
| Proxy.Count | src/proxy.ts:19-31 | without a live entry for the key the call opens a window of one minute with count 1 and is let through; otherwise the count goes up by one and the call is refused once it exceeds 10; no other key changes |
| Proxy.AnswersInWindow | src/proxy.ts:19-31 | within one window the i-th further call is refused exactly when the stored count plus i plus one exceeds 10 |
| Proxy.TenPerWindow | src/proxy.ts:14-31 | from a fresh start, of the calls inside one window the first 10 pass and every later one is refused |
| Proxy.Purged | src/proxy.ts:34-41 | the purge keeps exactly the live entries, unchanged |
| Proxy.PurgeInvisible | src/proxy.ts:33-41 | purging never changes an answer of the limiter, nor what it holds afterwards once expired entries are set aside |
| Proxy.RateLimiter.constructor | src/proxy.ts:17 | the store starts empty |
| Proxy.RateLimiter.IsRateLimited | src/proxy.ts:19-31 | the method updates the store and answers as `Count` says for the key `ip:endpoint` |
| Proxy.RateLimiter.Purge | src/proxy.ts:34-41 | the loop deletes exactly the expired entries |
| Proxy.SetAllSets | src/proxy.ts:54-58 | setting distinct headers one by one gives each its value and leaves every other header as it was |
| Proxy.SecurityNamesDistinct | src/proxy.ts:43-52 | the seven security header names are distinct |
| Proxy.ApplySecurityHeaders | src/proxy.ts:54-58 | the loop sets every security header |
| Proxy.SecurityHeadersApplied | src/proxy.ts:43-58 | after the loop every security header has its value and every other header is untouched |
| Proxy.FirstField | src/proxy.ts:74 | `split(",")[0]`: the longest prefix without a comma |
| Proxy.ClientIp | src/proxy.ts:73-76 | the trimmed first field of `x-forwarded-for` when present, otherwise the request's address, otherwise `127.0.0.1` |
| Proxy.Handle | src/proxy.ts:66-92 | a POST to a limited path counts once for its client and path and answers 429 with `Retry-After: 60` when refused; every other response passes on with the security headers, and other requests leave the store alone |
| Proxy.LimitedPathsUnderApiAuth | src/proxy.ts:60-64 | every rate-limited path starts with `/api/auth` |
| Proxy.MatcherSkipsLimitedPaths | src/proxy.ts:94-98 | the matcher as written excludes every rate-limited path, so the limiter never sees one |
| Proxy.Route | src/proxy.ts:66-98 | with the corrected matcher a POST to a limited path reaches the limiter and is refused exactly when `Count` says so; paths the matcher excludes bypass it untouched |
| Pagination.Range | src/components/blog/pagination.tsx:39-41 | the counting loop's pages: `lo` up to `hi` in steps of one, none when `hi < lo` |
| Pagination.GetPageNumbers | src/components/blog/pagination.tsx:34-63 | the pushing loops build exactly the number row the page-number rules define |
| Pagination.FewPagesAllShown | src/components/blog/pagination.tsx:38-41 | with at most 7 pages every page is shown, in order |
| Pagination.ManyPagesSevenEntries | src/components/blog/pagination.tsx:42-60 | with more than 7 pages the row has exactly 7 entries, starting with page 1 and ending with the last page |
| Pagination.PageNumbersWellFormed | src/components/blog/pagination.tsx:34-63 | every entry is a page in range or the ellipsis, the pages strictly increase, and every ellipsis stands for at least one hidden page |
| Pagination.CurrentPageShown | src/components/blog/pagination.tsx:34-63 | the current page, when in range, is always shown |
| Pagination.Kept | src/components/blog/pagination.tsx:19-27 | a parameter is preserved only under its own name and never when it is `page` |
| Pagination.QueryPairsSnoc | src/components/blog/pagination.tsx:19-27 | the parameters are carried over in their own order |
| Pagination.QueryPairsSound | src/components/blog/pagination.tsx:19-27 | every preserved pair comes from a parameter that is not `page` |
| Pagination.QueryPairsComplete | src/components/blog/pagination.tsx:20-25 | every non-empty single-valued parameter other than `page` is preserved |
| Pagination.PageQuery | src/components/blog/pagination.tsx:15-31 | the query ends with the one `page` pair for the asked page, and no other pair is named `page` |
| Pagination.CreatePageQuery | src/components/blog/pagination.tsx:15-31 | the loop over the parameters builds exactly that query |
| Pagination.Render | src/components/blog/pagination.tsx:13-131 | nothing for a single page; otherwise the previous link exactly when there is an earlier page and the next link exactly when there is a later one, each to its neighbour, and one button per entry of the number row with links to their pages |
| Pagination.OneActiveItem | src/components/blog/pagination.tsx:65-131 | exactly one button is marked active, the current page's |
| MarkdownEditor.InsertText | src/components/blog/markdown-editor.tsx:101-138 | the selection is wrapped: the text before it, the prefix, the selected text, the suffix, then the rest; the cursor lands right after the prefix on an empty selection and after the suffix otherwise |
| MarkdownEditor.InsertTextUnwraps | src/components/blog/markdown-editor.tsx:113-129 | removing the inserted prefix and suffix gives back the document, so nothing else is changed |
| MarkdownEditor.LineStart | src/components/blog/markdown-editor.tsx:146 | `lineAt(from).from`: the line begins after the last line feed before the position |
| MarkdownEditor.LineEnd | src/components/blog/markdown-editor.tsx:146-147 | the line ends at the next line feed or at the end of the document |
| MarkdownEditor.HashRun | src/components/blog/markdown-editor.tsx:156-157 | the leading run of '#' |
| MarkdownEditor.HeadingMatch | src/components/blog/markdown-editor.tsx:156-157 | `/^#{1,6}\s/` matches with length n+1 exactly when the line opens with n hashes (1 to 6) and a white-space character, and otherwise no such opening exists |
| MarkdownEditor.InsertAtStartOfLineEdits | src/components/blog/markdown-editor.tsx:140-179 | only the line holding the selection start changes: its prefix is removed when present, a heading marker is replaced by a heading prefix, and the prefix is inserted otherwise |
| MarkdownEditor.LineEditToggles | src/components/blog/markdown-editor.tsx:151-174 | applying a line prefix twice to a line that lacks it gives the line back |
| MarkdownEditor.ReplacedLine | src/components/blog/markdown-editor.tsx:146 | after a line is replaced by one without line feeds, any position in it lies on that new line |
| MarkdownEditor.EditLineTwice | src/components/blog/markdown-editor.tsx:140-179 | an edit of one line that undoes itself, done twice from a position on that line, restores the document |
| MarkdownEditor.InsertAtStartOfLineToggles | src/components/blog/markdown-editor.tsx:189-194 | the quote, list and heading buttons toggle: pressed twice on a line without the marker, from anywhere on that line, they restore the document |
| MarkdownEditor.Hashes | src/components/blog/markdown-editor.tsx:192-194 | n hash characters |
| MarkdownEditor.HeadingButtonsRelevel | src/components/blog/markdown-editor.tsx:151-168 | a heading button on a heading line removes its own marker when it is already there, and otherwise replaces the marker with its own level |
| MarkdownEditor.HashRunIs | src/components/blog/markdown-editor.tsx:156 | the hash run of a line that opens with j hashes is j |
| MarkdownEditor.MarkerOf | src/components/blog/markdown-editor.tsx:181-195 | every toolbar button has its marker; the link button does nothing without a URL and wraps the selection in `[` and `](url)` with one; the heading buttons are line prefixes starting with '#' |
| MarkdownEditor.ApplyTool | src/components/blog/markdown-editor.tsx:181-195 | a button wraps the selection or prefixes its line with its marker, and a cancelled link leaves the document alone |
| MarkdownEditor.Shortcut | src/components/blog/markdown-editor.tsx:248-258 | Ctrl or Cmd with b gives bold, with i italic, with k link and with e code; every other key combination gives no tool |
| MarkdownEditor.InsertImage | src/components/blog/markdown-editor.tsx:210-224 | with an editor the image Markdown goes in at the selection start with the cursor after it; without one it is appended on a new line, or becomes the value when that was empty |
| Theme.ThemeOf | src/components/theme-provider.tsx:27 | the stored string is cast without a check: the theme read back always has that string as its name |
| Theme.ThemeNameRoundTrip | src/components/theme-provider.tsx:27-42 | a theme stored and read back is the same theme |
| Theme.Resolve | src/components/theme-provider.tsx:33-38 | `system` resolves to dark exactly when the system prefers dark, and to light otherwise; every other theme resolves to itself; nothing resolves to `system` |
| Theme.ApplyClass | src/components/theme-provider.tsx:40-41 | the root then carries the new class, keeps every class other than `light` and `dark`, and gains nothing else |
| Theme.OneThemeClass | src/components/theme-provider.tsx:31-43 | after the effect the root carries `dark` exactly when the resolved theme is dark and `light` exactly when it is light, never both |
| Theme.ThemeProvider.constructor | src/components/theme-provider.tsx:17-24 | the provider starts with the default theme (`system` unless given) and the page as it is |
| Theme.ThemeProvider.Restore | src/components/theme-provider.tsx:26-29 | a non-empty stored value becomes the theme; an empty or missing one leaves it; nothing else changes |
| Theme.ThemeProvider.Apply | src/components/theme-provider.tsx:31-43 | the root's classes get the resolved theme's class in place of `light` and `dark`, and the chosen theme, not the resolved one, is stored |
| Theme.ThemeProvider.SetTheme | src/components/theme-provider.tsx:46 | the theme changes and nothing else does until the effect runs |
| Theme.ReloadKeepsTheme | src/components/theme-provider.tsx:24-43 | a theme that was applied survives a reload: the next provider, whatever its default, restores it from storage |
| ThemeToggle.Toggle | src/components/theme-toggle.tsx:10-22 | the click always chooses light or dark, and the page's resolved theme changes (unless the stored value was unknown) |
| ThemeToggle.ToggleFlips | src/components/theme-toggle.tsx:10-22 | the click flips the page between light and dark, and a second click gives the resolved theme back |
| ThemeToggle.IconMatchesPage | src/components/theme-toggle.tsx:32-39 | in a browser the sun icon shows exactly when the page is dark |
| ThemeToggle.LabelAsWritten | src/components/theme-toggle.tsx:30 | the label as written offers light mode exactly when the chosen theme is `dark`, whatever the page shows |
| ThemeToggle.LabelAsWrittenMisleads | src/components/theme-toggle.tsx:11-30 | on `system` with a dark system preference the click goes to light, yet the label says "Switch to dark mode" |
| ThemeToggle.Label | src/components/theme-toggle.tsx:10-30 | the corrected label names the theme the click actually selects |
| ThemeToggle.LabelAgreesOffSystem | src/components/theme-toggle.tsx:30 | away from `system` the corrected label is the label as written |
| Session.RequireAuth | src/lib/auth/helpers.ts:5-15 | a session with a non-empty user id passes with that user; anything else redirects to `/auth/login` |
| Session.RequireAdmin | src/lib/auth/helpers.ts:17-21 | only a signed-in admin passes; a signed-in non-admin is redirected to `/`, and no session to `/auth/login` |
| Types.JoinedAuthor | src/lib/actions/posts.ts:74-81 | the author block of a left join: the author id or empty, and for a missing user the empty name, email and image, role `user` and time 0 |
| Ordering.SortBy | src/lib/actions/posts.ts:236-240 | `ORDER BY` on a key: the same rows, as a multiset, in non-decreasing key order |
| Ordering.MemberOfSorted | src/lib/actions/posts.ts:236-269 | ordering neither adds nor drops a row |
| Ordering.FilterKeepsSorted | src/app/feed.xml/route.ts:31-32 | filtering an ordered listing keeps it ordered |
| Grouping.GroupByIsGroup | src/lib/actions/posts.ts:108-118 | the `Map` built by the push loop files under each key exactly the values of that key's rows, in row order |
| Grouping.LookupIsGroup | src/lib/actions/posts.ts:166 | `map.get(id) ?? []` is the group of that id, empty when it has no rows |
| Grouping.GroupByStep | src/lib/actions/posts.ts:109-117 | one more row extends exactly the entry of its own key |
| Text.Lower | src/lib/actions/posts.ts:17 | `toLowerCase` keeps the length and lowers each letter |
| Text.Trim | src/lib/actions/posts.ts:18 | the trimmed string neither starts nor ends with white space |
| Text.TrimIsSlice | src/lib/actions/search.ts:23-27 | `trim` removes only white space, and only at either end |
| Text.TrimIdempotent | src/lib/validators/post.ts:8 | trimming twice equals trimming once |
| Text.TrimEmptyIff | src/lib/actions/search.ts:23 | the trimmed string is empty exactly when the input is all white space |
| Text.Words | src/lib/actions/search.ts:28-29 | the pieces of `split(/\s+/).filter(Boolean)` are non-empty runs without white space that together hold exactly the input's non-space characters in order, and there are none exactly when the input is blank |
| Text.WordsOfJoin | src/lib/actions/search.ts:28-29 | splitting words joined by any whitespace separator gives the same words back, so the split keeps every maximal run whole |
| Text.NatToString | src/lib/actions/projects.ts:74 | a non-empty string of decimal digits whose value is the number, with no leading zero unless the number is zero |

## Left out

- Database errors: the `try`/`catch` branches that turn a database failure into an error message are not modelled. The database never fails in the model.
- `revalidatePath` and `redirect` side effects on the Next.js cache are not modelled. A redirect is an outcome value.
- Concurrency: two actions never interleave. The unique-slug check and the insert after it are atomic in the model.
- The "created but could not be retrieved" branches of `createPost` and `createProject` are modelled only under the assumption that the new id is fresh, which the database guarantees.
- Random slug suffixes, UUIDs, row ids and the clock are parameters. Node's `crypto`, `uuid` and `Date` are not part of this model.
- `changePostStatus`'s "Invalid status value" branch is unreachable here, because the status is an enumerated type.
- `getAdminComments` (src/lib/actions/comments.ts:373-410) is not modelled. It is an admin listing that joins the same rows as the modelled comment queries.
- Text.Lower: `toLowerCase` and `toUpperCase` are modelled on ASCII letters only. The same holds for CommentList.BadgeLetter.
- CommentList.BadgeLetter: takes the first character of the name or email, where `name?.[0]` takes the first UTF-16 code unit. For a name starting outside the Basic Multilingual Plane the page shows half a surrogate pair; the model shows the whole character.
- Zod.TrimField: `.min(1)` is checked before `.trim()`, as in the source. A title of only spaces passes and is stored empty.
- Slug: only generic lemmas about `toSlug` are proved. Fixed literal examples such as "Hello World" are not.
- Ordering.SortBy: ties under `ORDER BY` keep row order. SQL leaves tie order unspecified, so the model fixes one choice.
- Feed: without an excerpt, the description is the first 200 characters of the content, not the first 200 UTF-16 code units. Only the title is escaped. The link, the author name and the description are emitted as the source gives them.
- Feed: the XML text assembly, the response headers, `lastBuildDate` and the 500 path are not modelled. `toRFC822` is a parameter.
- Search: PostgreSQL's full-text engine, meaning `@@` matching, `ts_rank` and `ts_headline`, is a parameter. The regular expression on words keeps ASCII letters, digits and the CJK block.
- Upload: formData parsing, `mkdir` and the disk write are not modelled. The file name's UUID is a parameter.
- Proxy: `Date.now` and the `setInterval` purge timer are parameters. The `auth()` wrapper is not modelled.
- Proxy: header names are matched case-sensitively. The matcher's regular expression is modelled as the prefix tests it encodes.
- Proxy: rate-limit keys joined with `:` are assumed not to collide.
- Pagination: URL encoding of query values is an `encode` parameter. The React markup is reduced to the list of links and ellipses.
- MarkdownEditor: positions count characters, where the browser counts UTF-16 code units. The selection after a line edit is not tracked.
- MarkdownEditor: `prompt`, focus handling, the preview pane and the upload's error path are not modelled. The drag-and-drop type check is not modelled either.
- MarkdownEditor: `replaceSelection` is never set by the toolbar handlers, so only its default is modelled.
- Theme: `matchMedia` becomes the `prefersDark` parameter. The media-query change listener and React's effect scheduling are not modelled, and neither is the context default's no-op `setTheme`.
- Theme: a stored value that is not a theme name is kept as `Other(name)`. The browser's `classList.add` would throw on an empty or blank name, and that throw is not modelled.
- The markdown renderer and sanitiser pipeline is the `render` parameter. Only the sanitiser's schema is modelled.

## Findings

| source | as written | input that shows it | evidently intended | confidence | as-written member | corrected member |
|---|---|---|---|---|---|---|
| src/lib/actions/posts.ts:33 | with an `excludeId`, the filter `!excludeId \|\| r.slug !== slug` drops every fetched row, since each one holds the slug | post 2 renamed to the title of post 1, with `excludeId` 2: the base slug of post 1 is returned | exclude only the row whose id is `excludeId` | not executed; high | Posts.UniqueSlugExclusionFinding | Posts.GenerateUniqueSlug |
| src/lib/validators/project.ts:3-58 | `productUrl` is not in either schema, so Zod strips it; `createProject` stores null and `updateProject` never writes the column | `createProject` with a product link: the stored project has none | the schemas carry `productUrl` like `githubUrl` and `imageUrl`, so both actions store it (also `Projects.UpdateProjectIntended`) | not executed; medium | Projects.CreateProject | Projects.CreateProjectIntended |
| src/lib/auth/register.ts:36-37 | `(count?.count ?? 0) === 0` compares the `count(*)` value with the number 0, but the postgres-js driver returns a `bigint` count as text | the first registration on an empty database: the count is "0", so the user gets the role user and no admin ever exists | the first user is an admin | not executed; medium | Register.FirstUserRoleAsWritten | Register.FirstUserRole |
| src/proxy.ts:97 | the matcher excludes every path under `/api/auth`, and every rate-limited path is under it | eleven POSTs to `/api/auth/register` from one address within a minute: none is limited | the limiter runs on the rate-limited paths | not executed; medium | Proxy.MatcherSkipsLimitedPaths | Proxy.Route |
| src/components/theme-toggle.tsx:30 | the label only looks at `theme === "dark"` | theme `system` with a dark system preference: the label says "Switch to dark mode" while the click goes to light | the label names the theme the click leads to | not executed; medium | ThemeToggle.LabelAsWrittenMisleads | ThemeToggle.Label |
