/** The rows of the blog's tables, and the database as one object holding every table. */
module Schema {
  import opened Wrappers

  datatype Role = Admin | User

  function RoleName(r: Role): string {
    match r
    case Admin => "admin"
    case User => "user"
  }

  datatype Status = Draft | Published | Archived

  datatype NotificationType = Reply | CommentHidden | CommentDeleted | RoleChanged

  /** Timestamps are milliseconds. Columns that the schema fills with the current time on
      insert are plain integers here; columns that may really be null are options. */
  datatype UserRecord = UserRecord(
    id: string, name: Option<string>, email: string, image: Option<string>,
    passwordHash: Option<string>, role: Role, createdAt: int, updatedAt: int)

  datatype PostRecord = PostRecord(
    id: string, title: string, slug: string, content: string, renderedContent: string,
    excerpt: Option<string>, coverImageUrl: Option<string>, authorId: Option<string>,
    status: Status, createdAt: int, updatedAt: int, publishedAt: Option<int>)

  datatype TagRecord = TagRecord(id: string, name: string, slug: string, color: string)

  datatype PostTagRecord = PostTagRecord(postId: string, tagId: string)

  datatype CommentRecord = CommentRecord(
    id: string, content: string, renderedContent: string, postId: string,
    authorId: Option<string>, parentId: Option<string>, hidden: bool, createdAt: int)

  datatype NotificationRecord = NotificationRecord(
    id: string, userId: string, kind: NotificationType, message: string,
    referenceId: Option<string>, read: bool, createdAt: int)

  datatype ImageRecord = ImageRecord(
    id: string, filename: string, originalName: string, mimeType: string, size: int,
    uploadedBy: Option<string>, postId: Option<string>, createdAt: int)

  datatype ProjectRecord = ProjectRecord(
    id: string, title: string, slug: string, description: Option<string>,
    githubUrl: Option<string>, imageUrl: Option<string>, productUrl: Option<string>,
    cachedReadme: Option<string>, readmeUpdatedAt: Option<int>, authorId: Option<string>,
    status: Status, createdAt: int, updatedAt: int)

  /** Row selectors for `WHERE id = ...`. */
  function UserWithId(id: string): UserRecord -> bool {
    (u: UserRecord) => u.id == id
  }

  function CommentWithId(id: string): CommentRecord -> bool {
    (c: CommentRecord) => c.id == id
  }

  function PostWithId(id: string): PostRecord -> bool {
    (p: PostRecord) => p.id == id
  }

  function TagWithId(id: string): TagRecord -> bool {
    (t: TagRecord) => t.id == id
  }

  function ProjectWithId(id: string): ProjectRecord -> bool {
    (p: ProjectRecord) => p.id == id
  }

  /** The database. Each table is a sequence of rows in insertion order; the actions
      replace a table wholesale, as an `INSERT`, `UPDATE` or `DELETE` statement does. */
  class Database {
    var users: seq<UserRecord>
    var posts: seq<PostRecord>
    var tags: seq<TagRecord>
    var postTags: seq<PostTagRecord>
    var comments: seq<CommentRecord>
    var notifications: seq<NotificationRecord>
    var images: seq<ImageRecord>
    var projects: seq<ProjectRecord>

    constructor ()
      ensures users == [] && posts == [] && tags == [] && postTags == []
      ensures comments == [] && notifications == [] && images == [] && projects == []
    {
      users := [];
      posts := [];
      tags := [];
      postTags := [];
      comments := [];
      notifications := [];
      images := [];
      projects := [];
    }
  }
}

/** The shapes the actions hand to the pages. */
module Types {
  import opened Wrappers
  import opened Schema

  datatype UserView = UserView(
    id: string, name: Option<string>, email: string, image: Option<string>, role: Role,
    createdAt: int)

  /** The author block of a row whose author is left-joined from users: the row's author
      id, and the user's columns or, when the join found no user, their fallbacks. */
  function JoinedAuthor(authorId: Option<string>, user: Option<UserRecord>): (v: UserView)
    ensures v.id == authorId.GetOr("")
    ensures user.None? ==> v == UserView(authorId.GetOr(""), None, "", None, User, 0)
    ensures user.Some? ==>
      v.name == user.value.name && v.email == user.value.email
      && v.image == user.value.image && v.role == user.value.role && v.createdAt == user.value.createdAt
  {
    match user
    case None => UserView(authorId.GetOr(""), None, "", None, User, 0)
    case Some(u) => UserView(authorId.GetOr(""), u.name, u.email, u.image, u.role, u.createdAt)
  }

  datatype TagView = TagView(
    id: string, name: string, slug: string, color: Option<string>, postCount: Option<int>)

  /** `replies` holds the direct replies only: one level of nesting. */
  datatype CommentView = CommentView(
    id: string, content: string, renderedContent: string, postId: string, author: UserView,
    parentId: Option<string>, hidden: bool, createdAt: int, replies: seq<CommentView>)

  /** A post as the pages see it: its author joined in, its tags, its visible comment count. */
  datatype PostView = PostView(
    id: string, title: string, slug: string, content: string, renderedContent: string,
    excerpt: Option<string>, coverImageUrl: Option<string>, author: UserView, status: Status,
    tags: seq<TagView>, commentCount: nat, createdAt: int, updatedAt: int,
    publishedAt: Option<int>)

  datatype NotificationView = NotificationView(
    id: string, kind: NotificationType, message: string, referenceId: Option<string>,
    read: bool, createdAt: int)

  datatype PaginatedResult<T> = PaginatedResult(
    items: seq<T>, total: nat, page: int, pageSize: int, totalPages: nat)

  /** The signed-in user as the session reports it. */
  datatype SessionUser = SessionUser(
    id: string, name: Option<string>, email: string, image: Option<string>, role: Role)

  datatype ProjectView = ProjectView(
    id: string, title: string, slug: string, description: Option<string>,
    githubUrl: Option<string>, imageUrl: Option<string>, productUrl: Option<string>,
    cachedReadme: Option<string>, renderedReadme: Option<string>,
    readmeUpdatedAt: Option<int>, author: UserView, status: Status, createdAt: int,
    updatedAt: int)

  datatype SearchResult = SearchResult(
    id: string, title: string, slug: string, excerpt: Option<string>, snippet: string,
    relevanceScore: int, publishedAt: Option<int>, author: UserView, tags: seq<TagView>)
}

/** The application-wide limits. */
module Constants {
  const SEARCH_RESULTS_PER_PAGE: nat := 20
  const MAX_COMMENT_LENGTH: nat := 5000
  const MAX_IMAGE_SIZE: nat := 5 * 1024 * 1024
  const ALLOWED_IMAGE_TYPES: seq<string> := ["image/jpeg", "image/png", "image/webp", "image/gif"]
  const MIN_PASSWORD_LENGTH: nat := 8
}

/** `requireAuth` and `requireAdmin`: the gate every protected action passes first.
    A caller with no session is sent to the sign-in page; a signed-in non-admin who
    needs the admin role is sent to the home page. */
module Session {
  import opened Wrappers
  import opened Schema
  import opened Types

  datatype Gate = Pass(user: SessionUser) | Redirect(path: string)

  function RequireAuth(session: Option<SessionUser>): (g: Gate)
    ensures g.Pass? <==> session.Some? && session.value.id != ""
    ensures g.Pass? ==> g.user == session.value
    ensures g.Redirect? ==> g.path == "/auth/login"
  {
    if session.Some? && session.value.id != "" then Pass(session.value) else Redirect("/auth/login")
  }

  /** `getCurrentUser()?.role === 'admin'`: the reads that show more to an admin do not
      redirect anybody. */
  predicate IsAdmin(session: Option<SessionUser>) {
    session.Some? && session.value.id != "" && session.value.role == Admin
  }

  function RequireAdmin(session: Option<SessionUser>): (g: Gate)
    ensures g.Pass? <==> session.Some? && session.value.id != "" && session.value.role == Admin
    ensures g.Pass? ==> g.user == session.value
    ensures g.Redirect? ==> g.path == (if RequireAuth(session).Pass? then "/" else "/auth/login")
  {
    match RequireAuth(session)
    case Redirect(p) => Redirect(p)
    case Pass(u) => if u.role != Admin then Redirect("/") else Pass(u)
  }
}
