/** The portfolio projects: the GitHub README link and its cache, the paged list with its
    visibility rule, and the admin actions that create, update, refresh and delete
    projects. The network request is the parameter `fetch`: the response the GitHub API
    gives to a request URL. */
module Projects {
  import opened Wrappers
  import opened Schema
  import opened Types
  import opened Text
  import opened Seqs
  import opened Ordering
  import opened Session
  import opened Zod
  import opened Slug
  import opened Paging
  import opened ProjectValidators

  // ---------------------------------------------------------------------------------------
  // Slugs

  function ProjectSlugIs(slug: string): ProjectRecord -> bool {
    (p: ProjectRecord) => p.slug == slug
  }

  /** A project other than the one `exceptId` names that holds `slug`. */
  function ProjectHolder(slug: string, exceptId: Option<string>): ProjectRecord -> bool {
    (p: ProjectRecord) => p.slug == slug && (exceptId.None? || p.id != exceptId.value)
  }

  /** The unique-slug choice for the base slug `base`: kept when no project but the one
      `exceptId` names holds it, otherwise given the random suffix. */
  function ChooseProjectSlug(projects: seq<ProjectRecord>, base: string, exceptId: Option<string>,
                             suffix: string): (slug: string)
    ensures slug == base <==>
      forall p :: p in projects && p.slug == base ==> exceptId.Some? && p.id == exceptId.value
    ensures slug != base ==> slug == base + "-" + suffix
  {
    var holders := Filter(ProjectHolder(base, exceptId), projects);
    if holders != [] then
      assert holders[0] in holders;
      assert |base + "-" + suffix| > |base|;
      base + "-" + suffix
    else
      assert forall p :: p in projects && p.slug == base ==> exceptId.Some? && p.id == exceptId.value by {
        forall p | p in projects && p.slug == base ensures exceptId.Some? && p.id == exceptId.value {
          assert p !in holders;
        }
      }
      base
  }

  /** `generateUniqueSlug` as `createProject` calls it, with no `excludeId`: the title's
      slug when no project holds it, otherwise that slug with the random suffix. */
  function UniqueProjectSlug(projects: seq<ProjectRecord>, title: string, suffix: string): (slug: string)
    ensures slug == ToSlug(title) <==> forall p :: p in projects ==> p.slug != ToSlug(title)
    ensures slug != ToSlug(title) ==> slug == ToSlug(title) + "-" + suffix
  {
    ChooseProjectSlug(projects, ToSlug(title), None, suffix)
  }

  /** The slug `updateProject` writes: the current one unless a non-empty title slugs to
      something else, which is then kept unless another project already holds it. */
  function NextProjectSlug(projects: seq<ProjectRecord>, current: ProjectRecord, projectId: string,
                           title: Option<string>, suffix: string): (slug: string)
    ensures !Truthy(title) || ToSlug(title.value) == current.slug ==> slug == current.slug
    ensures Truthy(title) && ToSlug(title.value) != current.slug ==>
      slug == ChooseProjectSlug(projects, ToSlug(title.value), Some(projectId), suffix)
  {
    if !Truthy(title) || ToSlug(title.value) == current.slug then current.slug
    else ChooseProjectSlug(projects, ToSlug(title.value), Some(projectId), suffix)
  }

  // ---------------------------------------------------------------------------------------
  // The GitHub README

  const GITHUB_HOST := "github.com/"

  /** The end of the run of non-'/' characters starting at `i`. */
  function SegmentEnd(s: string, i: nat): (j: nat)
    requires i <= |s|
    ensures i <= j <= |s|
    ensures forall k :: i <= k < j ==> s[k] != '/'
    ensures j == |s| || s[j] == '/'
    decreases |s| - i
  {
    if i == |s| || s[i] == '/' then i else SegmentEnd(s, i + 1)
  }

  predicate HostAt(s: string, i: nat) {
    i + |GITHUB_HOST| <= |s| && s[i..i + |GITHUB_HOST|] == GITHUB_HOST
  }

  /** `/github\.com\/([^/]+)\/([^/]+)/` matches at position `i`: the host, then a non-empty
      segment, a '/', and another non-empty segment. */
  predicate MatchAt(s: string, i: nat) {
    HostAt(s, i)
    && var a := i + |GITHUB_HOST|;
       var b := SegmentEnd(s, a);
       a < b < |s| && SegmentEnd(s, b + 1) > b + 1
  }

  /** The least position in `i..n` that satisfies `m`. */
  function FirstFrom(m: nat -> bool, i: nat, n: nat): (r: Option<nat>)
    requires i <= n
    ensures r.Some? ==> i <= r.value <= n && m(r.value)
    decreases n - i
  {
    if m(i) then Some(i)
    else if i == n then None
    else FirstFrom(m, i + 1, n)
  }

  lemma {:induction false} FirstFromLeast(m: nat -> bool, i: nat, n: nat)
    requires i <= n
    ensures FirstFrom(m, i, n).None? <==> forall k :: i <= k <= n ==> !m(k)
    ensures FirstFrom(m, i, n).Some? ==> forall k :: i <= k < FirstFrom(m, i, n).value ==> !m(k)
    decreases n - i
  {
    if !m(i) && i < n {
      FirstFromLeast(m, i + 1, n);
    }
  }

  lemma {:induction false} FirstFromSkips(m: nat -> bool, i: nat, j: nat, n: nat)
    requires i <= j <= n
    requires forall k :: i <= k < j ==> !m(k)
    ensures FirstFrom(m, i, n) == FirstFrom(m, j, n)
    decreases j - i
  {
    if i < j {
      FirstFromSkips(m, i + 1, j, n);
    }
  }

  function Matcher(s: string): nat -> bool {
    (k: nat) => MatchAt(s, k)
  }

  /** The leftmost position from `i` on at which the pattern matches. */
  function FindMatch(s: string, i: nat): (r: Option<nat>)
    requires i <= |s|
    ensures r.Some? ==> i <= r.value <= |s| && MatchAt(s, r.value)
  {
    FirstFrom(Matcher(s), i, |s|)
  }

  /** The search finds nothing exactly when the pattern matches nowhere from `i` on, and
      what it finds is the leftmost match. */
  lemma FindMatchLeftmost(s: string, i: nat)
    requires i <= |s|
    ensures FindMatch(s, i).None? <==> forall k :: i <= k <= |s| ==> !MatchAt(s, k)
    ensures FindMatch(s, i).Some? ==> forall k :: i <= k < FindMatch(s, i).value ==> !MatchAt(s, k)
  {
    FirstFromLeast(Matcher(s), i, |s|);
    assert forall k :: Matcher(s)(k) == MatchAt(s, k);
  }

  /** `.replace(/\.git$/, '')`. */
  function StripGitSuffix(name: string): (r: string)
    ensures |name| >= 4 && name[|name| - 4..] == ".git" ==> r + ".git" == name
    ensures !(|name| >= 4 && name[|name| - 4..] == ".git") ==> r == name
  {
    if |name| >= 4 && name[|name| - 4..] == ".git" then
      assert name[..|name| - 4] + name[|name| - 4..] == name;
      name[..|name| - 4]
    else name
  }

  datatype Repo = Repo(owner: string, name: string)

  /** The owner and repository a GitHub link names: the two segments of the leftmost match,
      the second without a trailing ".git". */
  function ParseGithubUrl(url: string): (r: Option<Repo>)
    ensures r.None? <==> FindMatch(url, 0).None?
    ensures r.Some? ==> r.value.owner != [] && forall k :: 0 <= k < |r.value.owner| ==> r.value.owner[k] != '/'
  {
    match FindMatch(url, 0)
    case None => None
    case Some(i) =>
      var a := i + |GITHUB_HOST|;
      var b := SegmentEnd(url, a);
      var c := SegmentEnd(url, b + 1);
      Some(Repo(url[a..b], StripGitSuffix(url[b + 1..c])))
  }

  lemma SegmentEndAt(s: string, i: nat, j: nat)
    requires i <= j <= |s|
    requires forall k :: i <= k < j ==> s[k] != '/'
    requires j == |s| || s[j] == '/'
    ensures SegmentEnd(s, i) == j
    decreases j - i
  {
    if i < j {
      SegmentEndAt(s, i + 1, j);
    }
  }

  /** A link is parsed exactly when the pattern matches somewhere in it. */
  lemma ParsedIffMatch(url: string)
    ensures ParseGithubUrl(url).None? <==> forall k :: 0 <= k <= |url| ==> !MatchAt(url, k)
  {
    FindMatchLeftmost(url, 0);
  }

  /** A link with "github.com/" nowhere in it is not parsed. */
  lemma NoHostNoRepo(url: string)
    requires forall k :: 0 <= k <= |url| ==> !HostAt(url, k)
    ensures ParseGithubUrl(url).None?
  {
    ParsedIffMatch(url);
  }

  /** The two segments after the host. */
  lemma SegmentsAfterHost(s: string, a: nat, owner: string, repo: string, tail: string)
    requires owner != [] && forall k :: 0 <= k < |owner| ==> owner[k] != '/'
    requires repo != [] && forall k :: 0 <= k < |repo| ==> repo[k] != '/'
    requires tail == [] || tail[0] == '/'
    requires a <= |s| && s[a..] == owner + "/" + repo + tail
    ensures SegmentEnd(s, a) == a + |owner|
    ensures a + |owner| < |s| && SegmentEnd(s, a + |owner| + 1) == a + |owner| + 1 + |repo|
    ensures s[a..a + |owner|] == owner && s[a + |owner| + 1..a + |owner| + 1 + |repo|] == repo
  {
    var b := a + |owner|;
    var rest := s[a..];
    assert rest == owner + ("/" + repo + tail);
    SegmentOf(s, a, owner, "/" + repo + tail);
    assert s[b] == '/' by {
      assert s[b] == rest[|owner|];
    }
    assert s[b + 1..] == repo + tail by {
      assert s[b + 1..] == rest[|owner| + 1..];
    }
    SegmentOf(s, b + 1, repo, tail);
  }

  /** A segment followed by nothing or by a '/' ends where it ends. */
  lemma SegmentOf(s: string, a: nat, seg: string, after: string)
    requires forall k :: 0 <= k < |seg| ==> seg[k] != '/'
    requires after == [] || after[0] == '/'
    requires a <= |s| && s[a..] == seg + after
    ensures SegmentEnd(s, a) == a + |seg| && s[a..a + |seg|] == seg
  {
    var b := a + |seg|;
    assert forall k :: a <= k < b ==> s[k] != '/' by {
      forall k | a <= k < b ensures s[k] != '/' {
        assert s[k] == s[a..][k - a] == seg[k - a];
      }
    }
    assert b == |s| || s[b] == '/' by {
      if b < |s| {
        assert s[b] == s[a..][|seg|] == after[0];
      }
    }
    SegmentEndAt(s, a, b);
    assert s[a..b] == s[a..][..|seg|];
  }

  /** In a link starting "https://" the host cannot begin inside the scheme. */
  lemma NoHostInScheme(s: string)
    requires |s| >= 8 && s[..8] == "https://"
    ensures forall k :: 0 <= k < 8 ==> !HostAt(s, k)
  {
    forall k | 0 <= k < 8 ensures !HostAt(s, k) {
      assert s[k] == "https://"[k];
    }
  }

  lemma PrefixParts(rest: string)
    ensures var s := GITHUB_PREFIX + rest;
      |s| == 19 + |rest| && s[..8] == "https://" && s[8..19] == GITHUB_HOST && s[19..] == rest
  {
    var s := GITHUB_PREFIX + rest;
    assert s[..19] == GITHUB_PREFIX;
    assert s[..8] == GITHUB_PREFIX[..8];
    assert s[8..19] == GITHUB_PREFIX[8..19];
  }

  /** In a link starting "https://" a match at 8 is the leftmost one. */
  lemma MatchAfterScheme(s: string)
    requires |s| >= 8 && s[..8] == "https://" && MatchAt(s, 8)
    ensures FindMatch(s, 0) == Some(8)
  {
    NoHostInScheme(s);
    FirstFromSkips(Matcher(s), 0, 8, |s|);
  }

  /** A link of the documented shapes, `https://github.com/<owner>/<repo>` optionally
      followed by a path such as `/tree/<branch>`, names that owner and repository. */
  lemma GithubUrlParses(owner: string, repo: string, tail: string)
    requires owner != [] && forall k :: 0 <= k < |owner| ==> owner[k] != '/'
    requires repo != [] && forall k :: 0 <= k < |repo| ==> repo[k] != '/'
    requires tail == [] || tail[0] == '/'
    ensures ParseGithubUrl(GITHUB_PREFIX + (owner + "/" + repo + tail)) == Some(Repo(owner, StripGitSuffix(repo)))
  {
    PrefixParts(owner + "/" + repo + tail);
    ParsesAfterPrefix(GITHUB_PREFIX + (owner + "/" + repo + tail), owner, repo, tail);
  }

  /** The same, for any link that splits into the scheme, the host and the two segments. */
  lemma ParsesAfterPrefix(s: string, owner: string, repo: string, tail: string)
    requires owner != [] && forall k :: 0 <= k < |owner| ==> owner[k] != '/'
    requires repo != [] && forall k :: 0 <= k < |repo| ==> repo[k] != '/'
    requires tail == [] || tail[0] == '/'
    requires |s| >= 19 && s[..8] == "https://" && s[8..19] == GITHUB_HOST && s[19..] == owner + "/" + repo + tail
    ensures ParseGithubUrl(s) == Some(Repo(owner, StripGitSuffix(repo)))
  {
    SegmentsAfterHost(s, 19, owner, repo, tail);
    var b := 19 + |owner|;
    var c := b + 1 + |repo|;
    assert HostAt(s, 8);
    assert MatchAt(s, 8);
    MatchAfterScheme(s);
    ParseAt(s, 8, b, c, owner, repo);
  }

  /** What the parse makes of a leftmost match at `i` whose segments end at `b` and `c`. */
  lemma ParseAt(url: string, i: nat, b: nat, c: nat, owner: string, repo: string)
    requires i + |GITHUB_HOST| <= b < c <= |url|
    requires FindMatch(url, 0) == Some(i)
    requires SegmentEnd(url, i + |GITHUB_HOST|) == b && SegmentEnd(url, b + 1) == c
    requires url[i + |GITHUB_HOST|..b] == owner && url[b + 1..c] == repo
    ensures ParseGithubUrl(url) == Some(Repo(owner, StripGitSuffix(repo)))
  {
  }

  /** The API request for a repository's README. */
  function ReadmeApiUrl(repo: Repo): string {
    "https://api.github.com/repos/" + repo.owner + "/" + repo.name + "/readme"
  }

  /** What the request gave: a response with its status and body, or an exception
      (with the message of an `Error`, when it was one). */
  datatype FetchOutcome = Response(status: nat, body: string) | Thrown(message: Option<string>)

  const README_NOT_FOUND := "README not found in this repository"

  /** The result `fetchGithubReadme` makes of the API's answer: the body of a successful
      response, a message of its own for 404 and for any other failing status, and the
      error's message, or a fallback, for an exception. */
  function ReadmeFromResponse(res: FetchOutcome): (r: ActionResult<string>)
    ensures r.Ok? <==> res.Response? && 200 <= res.status <= 299
    ensures r.Ok? ==> r.data == res.body
    ensures res.Response? && res.status == 404 ==> r == Err(README_NOT_FOUND)
    ensures res.Response? && !(200 <= res.status <= 299) && res.status != 404 ==>
      r == Err("GitHub API error: " + NatToString(res.status))
    ensures res.Thrown? ==> r == Err(res.message.GetOr("Failed to fetch README"))
  {
    match res
    case Thrown(m) => Err(m.GetOr("Failed to fetch README"))
    case Response(status, body) =>
      if 200 <= status <= 299 then Ok(body)
      else if status == 404 then Err(README_NOT_FOUND)
      else Err("GitHub API error: " + NatToString(status))
  }

  /** `fetchGithubReadme`: a link the pattern does not match is refused before any
      request; otherwise the README of the repository it names is requested. */
  function FetchGithubReadme(githubUrl: string, fetch: string -> FetchOutcome): (r: ActionResult<string>)
    ensures ParseGithubUrl(githubUrl).None? ==> r == Err("Invalid GitHub URL format")
    ensures ParseGithubUrl(githubUrl).Some? ==>
      r == ReadmeFromResponse(fetch(ReadmeApiUrl(ParseGithubUrl(githubUrl).value)))
  {
    match ParseGithubUrl(githubUrl)
    case None => Err("Invalid GitHub URL format")
    case Some(repo) => ReadmeFromResponse(fetch(ReadmeApiUrl(repo)))
  }

  // ---------------------------------------------------------------------------------------
  // Reading

  /** One row of the project select: the project and its author left-joined from users. */
  datatype ProjectRow = ProjectRow(project: ProjectRecord, author: Option<UserRecord>)

  function SelectProjectRow(users: seq<UserRecord>, p: ProjectRecord): ProjectRow {
    ProjectRow(p, if p.authorId.Some? then First(UserWithId(p.authorId.value), users) else None)
  }

  /** `rowToProjectView`. The README is rendered only when a non-empty one is cached;
      `render` is the Markdown renderer. */
  function RowToProjectView(row: ProjectRow, render: string -> string): (v: ProjectView)
    ensures v.renderedReadme.None? <==> !Truthy(row.project.cachedReadme)
    ensures v.renderedReadme.Some? ==> v.renderedReadme.value == render(row.project.cachedReadme.value)
    ensures v.id == row.project.id && v.title == row.project.title && v.slug == row.project.slug
    ensures v.description == row.project.description && v.githubUrl == row.project.githubUrl
    ensures v.imageUrl == row.project.imageUrl && v.productUrl == row.project.productUrl
    ensures v.cachedReadme == row.project.cachedReadme && v.readmeUpdatedAt == row.project.readmeUpdatedAt
    ensures v.status == row.project.status
    ensures v.createdAt == row.project.createdAt && v.updatedAt == row.project.updatedAt
    ensures v.author == JoinedAuthor(row.project.authorId, row.author)
  {
    var p := row.project;
    var rendered := if Truthy(p.cachedReadme) then Some(render(p.cachedReadme.value)) else None;
    ProjectView(p.id, p.title, p.slug, p.description, p.githubUrl, p.imageUrl, p.productUrl,
      p.cachedReadme, rendered, p.readmeUpdatedAt, JoinedAuthor(p.authorId, row.author), p.status,
      p.createdAt, p.updatedAt)
  }

  function ProjectViewOf(users: seq<UserRecord>, render: string -> string): ProjectRecord -> ProjectView {
    (p: ProjectRecord) => RowToProjectView(SelectProjectRow(users, p), render)
  }

  /** `getProject`: the first project with the slug. Unlike posts, a draft is not hidden. */
  method GetProject(db: Database, render: string -> string, slug: string) returns (r: ActionResult<ProjectView>)
    ensures r.Err? <==> forall p :: p in db.projects ==> p.slug != slug
    ensures r.Err? ==> r.error == "Project not found"
    ensures r.Ok? ==> r.data == ProjectViewOf(db.users, render)(First(ProjectSlugIs(slug), db.projects).value)
    ensures r.Ok? ==> r.data.slug == slug
  {
    var found := First(ProjectSlugIs(slug), db.projects);
    if found.None? {
      return Err("Project not found");
    }
    r := Ok(RowToProjectView(SelectProjectRow(db.users, found.value), render));
  }

  /** `getProjectById`. */
  method GetProjectById(db: Database, render: string -> string, projectId: string)
    returns (r: ActionResult<ProjectView>)
    ensures First(ProjectWithId(projectId), db.projects).None? <==> r == Err("Project not found")
    ensures First(ProjectWithId(projectId), db.projects).Some? ==>
      r == Ok(ProjectViewOf(db.users, render)(First(ProjectWithId(projectId), db.projects).value))
  {
    var found := First(ProjectWithId(projectId), db.projects);
    if found.None? {
      return Err("Project not found");
    }
    r := Ok(RowToProjectView(SelectProjectRow(db.users, found.value), render));
  }

  // ---------------------------------------------------------------------------------------
  // Pages of projects

  /** The page size `getProjects` uses when none is asked for. */
  const PROJECTS_PAGE_SIZE: nat := 12

  /** The filters of `getProjects`. `adminView` is the caller's request to see more, not
      a check of the session. */
  datatype ProjectFilters = ProjectFilters(
    status: Option<Status>, page: Option<int>, pageSize: Option<int>, sort: Option<Sort>,
    adminView: Option<bool>)

  /** The `WHERE` of `getProjects`: published projects only, unless `adminView` is set, in
      which case the asked status, or every project. */
  function ProjectListed(adminView: bool, status: Option<Status>): ProjectRecord -> bool {
    (p: ProjectRecord) => if adminView then status.None? || p.status == status.value else p.status == Published
  }

  function ProjectCreated(p: ProjectRecord): int { p.createdAt }
  function ProjectCreatedDesc(p: ProjectRecord): int { -p.createdAt }

  function ProjectSortKey(sort: Option<Sort>): ProjectRecord -> int {
    if sort == Some(Oldest) then ProjectCreated else ProjectCreatedDesc
  }

  function SelectedProjects(projects: seq<ProjectRecord>, filters: ProjectFilters): (r: seq<ProjectRecord>)
    ensures forall p :: p in r <==> p in projects && ProjectListed(filters.adminView == Some(true), filters.status)(p)
  {
    Filter(ProjectListed(filters.adminView == Some(true), filters.status), projects)
  }

  /** The page `getProjects` answers. */
  function ProjectPage(users: seq<UserRecord>, projects: seq<ProjectRecord>, render: string -> string,
                       filters: ProjectFilters): PaginatedResult<ProjectView>
  {
    var page := ClampPage(filters.page);
    var size := ClampPageSize(filters.pageSize, PROJECTS_PAGE_SIZE);
    var selected := SelectedProjects(projects, filters);
    var window := Window(SortBy(selected, ProjectSortKey(filters.sort)), page, size);
    PaginatedResult(Map(ProjectViewOf(users, render), window), |selected|, page, size,
      CeilDiv(|selected|, size))
  }

  /** `getProjects`. */
  method GetProjects(db: Database, render: string -> string, filters: ProjectFilters)
    returns (r: ActionResult<PaginatedResult<ProjectView>>)
    ensures r == Ok(ProjectPage(db.users, db.projects, render, filters))
  {
    var page := ClampPage(filters.page);
    var pageSize := ClampPageSize(filters.pageSize, PROJECTS_PAGE_SIZE);
    var selected := SelectedProjects(db.projects, filters);
    var total := |selected|;
    var rows := Window(SortBy(selected, ProjectSortKey(filters.sort)), page, pageSize);
    var items := Map(ProjectViewOf(db.users, render), rows);
    r := Ok(PaginatedResult(items, total, page, pageSize, CeilDiv(total, pageSize)));
  }

  /** Every item of a page is the view of a listed project. */
  lemma ProjectPageIsVisible(users: seq<UserRecord>, projects: seq<ProjectRecord>, render: string -> string,
                             filters: ProjectFilters)
    ensures forall v :: v in ProjectPage(users, projects, render, filters).items ==>
      (filters.adminView != Some(true) ==> v.status == Published)
      && (filters.adminView == Some(true) && filters.status.Some? ==> v.status == filters.status.value)
      && exists p :: p in projects && v == ProjectViewOf(users, render)(p)
  {
    var selected := SelectedProjects(projects, filters);
    var sorted := SortBy(selected, ProjectSortKey(filters.sort));
    var w := Window(sorted, ClampPage(filters.page), ClampPageSize(filters.pageSize, PROJECTS_PAGE_SIZE));
    var items := Map(ProjectViewOf(users, render), w);
    forall v | v in items
      ensures (filters.adminView != Some(true) ==> v.status == Published)
        && (filters.adminView == Some(true) && filters.status.Some? ==> v.status == filters.status.value)
        && exists p :: p in projects && v == ProjectViewOf(users, render)(p)
    {
      var i :| 0 <= i < |items| && items[i] == v;
      assert w[i] in sorted;
      MemberOfSorted(selected, ProjectSortKey(filters.sort), w[i]);
    }
  }

  /** The counts of a page: the clamped page and size, at most a page of items, and the
      number of pages that hold every listed project. */
  lemma ProjectPageCounts(users: seq<UserRecord>, projects: seq<ProjectRecord>, render: string -> string,
                          filters: ProjectFilters)
    ensures var r := ProjectPage(users, projects, render, filters);
      r.page >= 1 && 1 <= r.pageSize <= 100
      && (filters.pageSize.None? ==> r.pageSize == 12)
      && |r.items| <= r.pageSize && r.total <= |projects|
      && r.totalPages * r.pageSize >= r.total
      && (r.totalPages > 0 ==> (r.totalPages - 1) * r.pageSize < r.total)
  {
  }

  /** An admin view with no status filter counts every project. */
  lemma AdminViewCountsAll(users: seq<UserRecord>, projects: seq<ProjectRecord>, render: string -> string,
                           filters: ProjectFilters)
    requires filters.adminView == Some(true) && filters.status.None?
    ensures ProjectPage(users, projects, render, filters).total == |projects|
  {
    FilterAll(ProjectListed(true, None), projects);
  }

  /** The items are ordered newest first, or oldest first when asked. */
  lemma ProjectPageIsOrdered(users: seq<UserRecord>, projects: seq<ProjectRecord>, render: string -> string,
                             filters: ProjectFilters)
    ensures var items := ProjectPage(users, projects, render, filters).items;
      forall i, j :: 0 <= i < j < |items| ==>
        if filters.sort == Some(Oldest) then items[i].createdAt <= items[j].createdAt
        else items[i].createdAt >= items[j].createdAt
  {
    var key := ProjectSortKey(filters.sort);
    var sorted := SortBy(SelectedProjects(projects, filters), key);
    var w := Window(sorted, ClampPage(filters.page), ClampPageSize(filters.pageSize, PROJECTS_PAGE_SIZE));
    WindowSorted(sorted, key, ClampPage(filters.page), ClampPageSize(filters.pageSize, PROJECTS_PAGE_SIZE));
    var items := Map(ProjectViewOf(users, render), w);
    forall i, j | 0 <= i < j < |items|
      ensures if filters.sort == Some(Oldest) then items[i].createdAt <= items[j].createdAt
              else items[i].createdAt >= items[j].createdAt
    {
      assert key(w[i]) <= key(w[j]);
    }
  }

  // ---------------------------------------------------------------------------------------
  // Writing

  /** The README a create caches: the fetched text, stamped `now`, when a non-empty GitHub
      link is given and its README is fetched; nothing otherwise. */
  function CreateReadme(githubUrl: Option<string>, fetch: string -> FetchOutcome, now: int)
    : (r: (Option<string>, Option<int>))
    ensures r.0.Some? <==> Truthy(githubUrl) && FetchGithubReadme(githubUrl.value, fetch).Ok?
    ensures r.0.Some? ==> r.0.value == FetchGithubReadme(githubUrl.value, fetch).data
    ensures r.1 == if r.0.Some? then Some(now) else None
  {
    if Truthy(githubUrl) && FetchGithubReadme(githubUrl.value, fetch).Ok? then
      (Some(FetchGithubReadme(githubUrl.value, fetch).data), Some(now))
    else (None, None)
  }

  /** The project row a create inserts for the parsed data `d`. */
  function NewProject(projects: seq<ProjectRecord>, d: CreateProjectData, authorId: string,
                      fetch: string -> FetchOutcome, id: string, suffix: string, now: int): ProjectRecord {
    var readme := CreateReadme(d.githubUrl.OrNull(), fetch, now);
    ProjectRecord(id, d.title, UniqueProjectSlug(projects, d.title, suffix), d.description.OrNull(),
      d.githubUrl.OrNull(), d.imageUrl.OrNull(), d.productUrl.OrNull(), readme.0, readme.1,
      Some(authorId), d.status, now, now)
  }

  /** `createProject`. The schema drops the product link, so the new project never has one
      (see the findings). `id` is the new UUID, `suffix` the random slug suffix and `now`
      the clock. */
  method CreateProject(db: Database, session: Option<SessionUser>, input: CreateProjectInput,
                       isUrl: string -> bool, render: string -> string, fetch: string -> FetchOutcome,
                       id: string, suffix: string, now: int)
    returns (o: Outcome<ActionResult<ProjectView>>)
    modifies db`projects
    ensures RequireAdmin(session).Redirect? ==>
      o == Redirected(RequireAdmin(session).path) && db.projects == old(db.projects)
    ensures RequireAdmin(session).Pass? && ParseCreateProject(input, isUrl).Invalid? ==>
      o == Returned(Err(FirstMessage(ParseCreateProject(input, isUrl).issues)))
      && db.projects == old(db.projects)
    ensures RequireAdmin(session).Pass? && ParseCreateProject(input, isUrl).Valid? ==>
      var d := ParseCreateProject(input, isUrl).data;
      var p := NewProject(old(db.projects), d, session.value.id, fetch, id, suffix, now);
      db.projects == old(db.projects) + [p] && p.productUrl.None?
      && ((forall q :: q in old(db.projects) ==> q.id != id) ==>
            o == Returned(Ok(ProjectViewOf(db.users, render)(p))))
  {
    var gate := RequireAdmin(session);
    if gate.Redirect? {
      return Redirected(gate.path);
    }
    var parsed := ParseCreateProject(input, isUrl);
    if parsed.Invalid? {
      return Returned(Err(FirstMessage(parsed.issues)));
    }
    o := InsertProject(db, render, fetch, gate.user.id, parsed.data, id, suffix, now);
  }

  /** `createProject` as evidently intended: the product link given is stored. */
  method CreateProjectIntended(db: Database, session: Option<SessionUser>, input: CreateProjectInput,
                               isUrl: string -> bool, render: string -> string, fetch: string -> FetchOutcome,
                               id: string, suffix: string, now: int)
    returns (o: Outcome<ActionResult<ProjectView>>)
    modifies db`projects
    ensures RequireAdmin(session).Redirect? ==>
      o == Redirected(RequireAdmin(session).path) && db.projects == old(db.projects)
    ensures RequireAdmin(session).Pass? && ParseCreateProject(input, isUrl).Invalid? ==>
      o == Returned(Err(FirstMessage(ParseCreateProject(input, isUrl).issues)))
      && db.projects == old(db.projects)
    ensures RequireAdmin(session).Pass? && ParseCreateProject(input, isUrl).Valid? ==>
      var d := ParseCreateProjectKeepingProductUrl(input, isUrl).data;
      var p := NewProject(old(db.projects), d, session.value.id, fetch, id, suffix, now);
      db.projects == old(db.projects) + [p] && p.productUrl == input.productUrl.OrNull()
      && ((forall q :: q in old(db.projects) ==> q.id != id) ==>
            o == Returned(Ok(ProjectViewOf(db.users, render)(p))))
  {
    var gate := RequireAdmin(session);
    if gate.Redirect? {
      return Redirected(gate.path);
    }
    var parsed := ParseCreateProjectKeepingProductUrl(input, isUrl);
    if parsed.Invalid? {
      return Returned(Err(FirstMessage(parsed.issues)));
    }
    o := InsertProject(db, render, fetch, gate.user.id, parsed.data, id, suffix, now);
  }

  /** The steps of `createProject` after the parse: the slug, the README fetch, the insert
      and the read-back. */
  method InsertProject(db: Database, render: string -> string, fetch: string -> FetchOutcome,
                       authorId: string, d: CreateProjectData, id: string, suffix: string, now: int)
    returns (o: Outcome<ActionResult<ProjectView>>)
    modifies db`projects
    ensures db.projects == old(db.projects) + [NewProject(old(db.projects), d, authorId, fetch, id, suffix, now)]
    ensures o.Returned?
    ensures (forall q :: q in old(db.projects) ==> q.id != id) ==>
      o == Returned(Ok(ProjectViewOf(db.users, render)(NewProject(old(db.projects), d, authorId, fetch, id, suffix, now))))
  {
    var slug := UniqueProjectSlug(db.projects, d.title, suffix);
    var cachedReadme: Option<string> := None;
    var readmeUpdatedAt: Option<int> := None;
    if Truthy(d.githubUrl.OrNull()) {
      var readmeResult := FetchGithubReadme(d.githubUrl.value, fetch);
      if readmeResult.Ok? {
        cachedReadme := Some(readmeResult.data);
        readmeUpdatedAt := Some(now);
      }
    }
    var p := ProjectRecord(id, d.title, slug, d.description.OrNull(), d.githubUrl.OrNull(),
      d.imageUrl.OrNull(), d.productUrl.OrNull(), cachedReadme, readmeUpdatedAt, Some(authorId),
      d.status, now, now);
    assert p == NewProject(db.projects, d, authorId, fetch, id, suffix, now);
    if forall q :: q in db.projects ==> q.id != id {
      FirstAppended(ProjectWithId(id), db.projects, p);
    }
    db.projects := db.projects + [p];
    var result := GetProjectById(db, render, id);
    if result.Err? {
      return Returned(Err("Project created but could not be retrieved"));
    }
    o := Returned(Ok(result.data));
  }

  /** The `SET` list of an `UPDATE projects`: a field left out is not written. */
  datatype ProjectChange = ProjectChange(
    title: Option<string>, description: Field<string>, githubUrl: Field<string>,
    imageUrl: Field<string>, productUrl: Field<string>, status: Option<Status>, slug: Option<string>,
    cachedReadme: Field<string>, readmeUpdatedAt: Field<int>, updatedAt: int)

  function ApplyProjectChange(c: ProjectChange): ProjectRecord -> ProjectRecord {
    (p: ProjectRecord) =>
      p.(title := c.title.GetOr(p.title), description := Assign(c.description, p.description),
         githubUrl := Assign(c.githubUrl, p.githubUrl), imageUrl := Assign(c.imageUrl, p.imageUrl),
         productUrl := Assign(c.productUrl, p.productUrl), status := c.status.GetOr(p.status),
         slug := c.slug.GetOr(p.slug), cachedReadme := Assign(c.cachedReadme, p.cachedReadme),
         readmeUpdatedAt := Assign(c.readmeUpdatedAt, p.readmeUpdatedAt), updatedAt := c.updatedAt)
  }

  /** An assignment to a nullable column: left out keeps the value, `null` clears it. */
  function Assign<T>(f: Field<T>, current: Option<T>): (r: Option<T>)
    ensures f.Absent? ==> r == current
    ensures !f.Absent? ==> r == f.OrNull()
  {
    if f.Absent? then current else f.OrNull()
  }

  /** The README cache after an update, as the record sees it: a GitHub link left out leaves
      the cache alone, an empty or null link clears it, and a link replaces it only when
      its README is fetched. */
  predicate CacheRule(before: ProjectRecord, after: ProjectRecord, githubUrl: Field<string>,
                      fetch: string -> FetchOutcome, now: int) {
    if githubUrl.Absent? then
      after.cachedReadme == before.cachedReadme && after.readmeUpdatedAt == before.readmeUpdatedAt
      && after.githubUrl == before.githubUrl
    else if !Truthy(githubUrl.OrNull()) then
      after.cachedReadme.None? && after.readmeUpdatedAt.None? && after.githubUrl == githubUrl.OrNull()
    else
      after.githubUrl == Some(githubUrl.value)
      && var fetched := FetchGithubReadme(githubUrl.value, fetch);
         if fetched.Ok? then after.cachedReadme == Some(fetched.data) && after.readmeUpdatedAt == Some(now)
         else after.cachedReadme == before.cachedReadme && after.readmeUpdatedAt == before.readmeUpdatedAt
  }

  /** The field-wise rules of an update: given fields are written, the others kept. */
  predicate UpdateRule(projects: seq<ProjectRecord>, before: ProjectRecord, after: ProjectRecord,
                       projectId: string, d: UpdateProjectInput, fetch: string -> FetchOutcome,
                       suffix: string, now: int) {
    after.id == before.id && after.authorId == before.authorId && after.createdAt == before.createdAt
    && after.title == d.title.GetOr(before.title)
    && after.description == Assign(d.description, before.description)
    && after.imageUrl == Assign(d.imageUrl, before.imageUrl)
    && after.productUrl == Assign(d.productUrl, before.productUrl)
    && after.status == d.status.GetOr(before.status)
    && after.slug == NextProjectSlug(projects, before, projectId, d.title, suffix)
    && after.updatedAt == now
    && CacheRule(before, after, d.githubUrl, fetch, now)
  }

  /** `updateProject`. The schema drops the product link, so an update never changes it
      (see the findings). */
  method UpdateProject(db: Database, session: Option<SessionUser>, projectId: string,
                       input: UpdateProjectInput, isUrl: string -> bool, render: string -> string,
                       fetch: string -> FetchOutcome, suffix: string, now: int)
    returns (o: Outcome<ActionResult<ProjectView>>)
    modifies db`projects
    ensures RequireAdmin(session).Redirect? ==>
      o == Redirected(RequireAdmin(session).path) && db.projects == old(db.projects)
    ensures RequireAdmin(session).Pass? && projectId == "" ==>
      o == Returned(Err("Project ID is required")) && db.projects == old(db.projects)
    ensures RequireAdmin(session).Pass? && projectId != "" && ParseUpdateProject(input, isUrl).Invalid? ==>
      o == Returned(Err(FirstMessage(ParseUpdateProject(input, isUrl).issues)))
      && db.projects == old(db.projects)
    ensures RequireAdmin(session).Pass? && projectId != "" && ParseUpdateProject(input, isUrl).Valid? ==>
      UpdateOutcome(old(db.projects), db.projects, db.users, render, projectId,
        ParseUpdateProject(input, isUrl).data, fetch, suffix, now, o)
  {
    var gate := RequireAdmin(session);
    if gate.Redirect? {
      return Redirected(gate.path);
    }
    if projectId == "" {
      return Returned(Err("Project ID is required"));
    }
    var parsed := ParseUpdateProject(input, isUrl);
    if parsed.Invalid? {
      return Returned(Err(FirstMessage(parsed.issues)));
    }
    o := UpdateExisting(db, render, projectId, parsed.data, fetch, suffix, now);
  }

  /** `updateProject` as evidently intended: a given product link is written. */
  method UpdateProjectIntended(db: Database, session: Option<SessionUser>, projectId: string,
                               input: UpdateProjectInput, isUrl: string -> bool, render: string -> string,
                               fetch: string -> FetchOutcome, suffix: string, now: int)
    returns (o: Outcome<ActionResult<ProjectView>>)
    modifies db`projects
    ensures RequireAdmin(session).Redirect? ==>
      o == Redirected(RequireAdmin(session).path) && db.projects == old(db.projects)
    ensures RequireAdmin(session).Pass? && projectId == "" ==>
      o == Returned(Err("Project ID is required")) && db.projects == old(db.projects)
    ensures RequireAdmin(session).Pass? && projectId != "" && ParseUpdateProject(input, isUrl).Invalid? ==>
      o == Returned(Err(FirstMessage(ParseUpdateProject(input, isUrl).issues)))
      && db.projects == old(db.projects)
    ensures RequireAdmin(session).Pass? && projectId != "" && ParseUpdateProject(input, isUrl).Valid? ==>
      UpdateOutcome(old(db.projects), db.projects, db.users, render, projectId,
        ParseUpdateProjectKeepingProductUrl(input, isUrl).data, fetch, suffix, now, o)
  {
    var gate := RequireAdmin(session);
    if gate.Redirect? {
      return Redirected(gate.path);
    }
    if projectId == "" {
      return Returned(Err("Project ID is required"));
    }
    var parsed := ParseUpdateProjectKeepingProductUrl(input, isUrl);
    if parsed.Invalid? {
      return Returned(Err(FirstMessage(parsed.issues)));
    }
    o := UpdateExisting(db, render, projectId, parsed.data, fetch, suffix, now);
  }

  /** What an update with the parsed data `d` answers and writes: "Project not found" with
      no change for an unknown id; otherwise the row rewritten by the field-wise rules and
      its view. */
  ghost predicate UpdateOutcome(before: seq<ProjectRecord>, after: seq<ProjectRecord>, users: seq<UserRecord>,
                                render: string -> string, projectId: string, d: UpdateProjectInput,
                                fetch: string -> FetchOutcome, suffix: string, now: int,
                                o: Outcome<ActionResult<ProjectView>>) {
    match First(ProjectWithId(projectId), before)
    case None => o == Returned(Err("Project not found")) && after == before
    case Some(current) =>
      exists c: ProjectChange ::
        after == UpdateWhere(ProjectWithId(projectId), ApplyProjectChange(c), before)
        && UpdateRule(before, current, ApplyProjectChange(c)(current), projectId, d, fetch, suffix, now)
        && o == Returned(Ok(ProjectViewOf(users, render)(ApplyProjectChange(c)(current))))
  }

  /** The steps of `updateProject` after the parse: the lookup, the `SET` list, the write
      and the read-back. */
  method UpdateExisting(db: Database, render: string -> string, projectId: string, d: UpdateProjectInput,
                        fetch: string -> FetchOutcome, suffix: string, now: int)
    returns (o: Outcome<ActionResult<ProjectView>>)
    modifies db`projects
    ensures UpdateOutcome(old(db.projects), db.projects, db.users, render, projectId, d, fetch, suffix, now, o)
  {
    var existing := First(ProjectWithId(projectId), db.projects);
    if existing.None? {
      return Returned(Err("Project not found"));
    }
    var current := existing.value;
    var c := UpdateValues(db.projects, current, projectId, d, fetch, suffix, now);
    SetListRule(c, db.projects, current, projectId, d, fetch, suffix, now);
    var r := StoreProjectChange(db, render, projectId, current, c);
    o := Returned(r);
  }

  /** The README columns of the `SET` list of an update, for the GitHub link `githubUrl`. */
  predicate CacheColumns(c: ProjectChange, githubUrl: Field<string>, fetch: string -> FetchOutcome, now: int) {
    if githubUrl.Absent? then c.cachedReadme.Absent? && c.readmeUpdatedAt.Absent?
    else if !Truthy(githubUrl.OrNull()) then c.cachedReadme.Null? && c.readmeUpdatedAt.Null?
    else if FetchGithubReadme(githubUrl.value, fetch).Ok? then
      c.cachedReadme == Present(FetchGithubReadme(githubUrl.value, fetch).data)
      && c.readmeUpdatedAt == Present(now)
    else c.cachedReadme.Absent? && c.readmeUpdatedAt.Absent?
  }

  /** The `SET` list `updateProject` builds: every given field, the slug, `updatedAt`, and
      the README columns. */
  predicate SetList(c: ProjectChange, projects: seq<ProjectRecord>, current: ProjectRecord,
                    projectId: string, d: UpdateProjectInput, fetch: string -> FetchOutcome,
                    suffix: string, now: int) {
    c.title == d.title && c.description == d.description && c.githubUrl == d.githubUrl
    && c.imageUrl == d.imageUrl && c.productUrl == d.productUrl && c.status == d.status
    && c.slug == Some(NextProjectSlug(projects, current, projectId, d.title, suffix))
    && c.updatedAt == now && CacheColumns(c, d.githubUrl, fetch, now)
  }

  /** Writing that `SET` list gives the row the field-wise rules of an update. */
  lemma SetListRule(c: ProjectChange, projects: seq<ProjectRecord>, current: ProjectRecord,
                    projectId: string, d: UpdateProjectInput, fetch: string -> FetchOutcome,
                    suffix: string, now: int)
    requires SetList(c, projects, current, projectId, d, fetch, suffix, now)
    ensures UpdateRule(projects, current, ApplyProjectChange(c)(current), projectId, d, fetch, suffix, now)
  {
    var after := ApplyProjectChange(c)(current);
    assert after.githubUrl == Assign(d.githubUrl, current.githubUrl);
    assert after.cachedReadme == Assign(c.cachedReadme, current.cachedReadme);
    assert after.readmeUpdatedAt == Assign(c.readmeUpdatedAt, current.readmeUpdatedAt);
  }

  /** The `updateValues` record `updateProject` builds field by field. */
  method UpdateValues(projects: seq<ProjectRecord>, current: ProjectRecord, projectId: string,
                      d: UpdateProjectInput, fetch: string -> FetchOutcome, suffix: string, now: int)
    returns (c: ProjectChange)
    ensures SetList(c, projects, current, projectId, d, fetch, suffix, now)
  {
    var newSlug := NewSlug(projects, current, projectId, d.title, suffix);
    c := ProjectChange(None, Absent, Absent, Absent, Absent, None, Some(newSlug), Absent, Absent, now);
    if d.title.Some? { c := c.(title := d.title); }
    if !d.description.Absent? { c := c.(description := d.description); }
    if !d.imageUrl.Absent? { c := c.(imageUrl := d.imageUrl); }
    if d.status.Some? { c := c.(status := d.status); }
    if !d.productUrl.Absent? { c := c.(productUrl := d.productUrl); }
    c := ReadmeValues(c, d.githubUrl, fetch, now);
  }

  /** The slug steps of `updateProject`. */
  method NewSlug(projects: seq<ProjectRecord>, current: ProjectRecord, projectId: string,
                 title: Option<string>, suffix: string) returns (newSlug: string)
    ensures newSlug == NextProjectSlug(projects, current, projectId, title, suffix)
  {
    newSlug := current.slug;
    if Truthy(title) {
      var base := ToSlug(title.value);
      if base != current.slug {
        var conflict := Filter(ProjectHolder(base, Some(projectId)), projects);
        newSlug := if |conflict| > 0 then base + "-" + suffix else base;
      }
    }
  }

  /** The GitHub link steps of `updateProject`: the link and the README columns. */
  method ReadmeValues(c0: ProjectChange, githubUrl: Field<string>, fetch: string -> FetchOutcome, now: int)
    returns (c: ProjectChange)
    requires c0.cachedReadme.Absent? && c0.readmeUpdatedAt.Absent? && c0.githubUrl.Absent?
    ensures c == c0.(githubUrl := githubUrl, cachedReadme := c.cachedReadme, readmeUpdatedAt := c.readmeUpdatedAt)
    ensures CacheColumns(c, githubUrl, fetch, now)
  {
    c := c0;
    if !githubUrl.Absent? {
      c := c.(githubUrl := githubUrl);
      if Truthy(githubUrl.OrNull()) {
        var readmeResult := FetchGithubReadme(githubUrl.value, fetch);
        if readmeResult.Ok? {
          c := c.(cachedReadme := Present(readmeResult.data), readmeUpdatedAt := Present(now));
        }
      } else {
        c := c.(cachedReadme := Null, readmeUpdatedAt := Null);
      }
    }
  }

  /** The write of `updateProject` and the read-back of the updated project. */
  method StoreProjectChange(db: Database, render: string -> string, projectId: string,
                            current: ProjectRecord, c: ProjectChange) returns (r: ActionResult<ProjectView>)
    requires First(ProjectWithId(projectId), db.projects) == Some(current)
    requires ApplyProjectChange(c)(current).id == current.id
    modifies db`projects
    ensures db.projects == UpdateWhere(ProjectWithId(projectId), ApplyProjectChange(c), old(db.projects))
    ensures r == Ok(ProjectViewOf(db.users, render)(ApplyProjectChange(c)(current)))
  {
    FirstUpdated(ProjectWithId(projectId), ApplyProjectChange(c), db.projects);
    db.projects := UpdateWhere(ProjectWithId(projectId), ApplyProjectChange(c), db.projects);
    r := GetProjectById(db, render, projectId);
    if r.Err? {
      r := Err("Project updated but could not be retrieved");
    }
  }

  /** `refreshProjectReadme`. */
  method RefreshProjectReadme(db: Database, session: Option<SessionUser>, projectId: string,
                              render: string -> string, fetch: string -> FetchOutcome, now: int)
    returns (o: Outcome<ActionResult<ProjectView>>)
    modifies db`projects
    ensures RequireAdmin(session).Redirect? ==>
      o == Redirected(RequireAdmin(session).path) && db.projects == old(db.projects)
    ensures RequireAdmin(session).Pass? ==>
      var found := First(ProjectWithId(projectId), old(db.projects));
      if projectId == "" then
        o == Returned(Err("Project ID is required")) && db.projects == old(db.projects)
      else if found.None? then
        o == Returned(Err("Project not found")) && db.projects == old(db.projects)
      else if !Truthy(found.value.githubUrl) then
        o == Returned(Err("No GitHub URL set for this project")) && db.projects == old(db.projects)
      else
        var fetched := FetchGithubReadme(found.value.githubUrl.value, fetch);
        if fetched.Err? then
          o == Returned(Err(fetched.error)) && db.projects == old(db.projects)
        else
          var c := ReadmeRefresh(fetched.data, now);
          db.projects == UpdateWhere(ProjectWithId(projectId), ApplyProjectChange(c), old(db.projects))
          && o == Returned(Ok(ProjectViewOf(db.users, render)(ApplyProjectChange(c)(found.value))))
  {
    var gate := RequireAdmin(session);
    if gate.Redirect? {
      return Redirected(gate.path);
    }
    if projectId == "" {
      return Returned(Err("Project ID is required"));
    }
    var existing := First(ProjectWithId(projectId), db.projects);
    if existing.None? {
      return Returned(Err("Project not found"));
    }
    var githubUrl := existing.value.githubUrl;
    if !Truthy(githubUrl) {
      return Returned(Err("No GitHub URL set for this project"));
    }
    var readmeResult := FetchGithubReadme(githubUrl.value, fetch);
    if readmeResult.Err? {
      return Returned(Err(readmeResult.error));
    }
    var c := ReadmeRefresh(readmeResult.data, now);
    FirstUpdated(ProjectWithId(projectId), ApplyProjectChange(c), db.projects);
    db.projects := UpdateWhere(ProjectWithId(projectId), ApplyProjectChange(c), db.projects);
    var result := GetProjectById(db, render, projectId);
    if result.Err? {
      return Returned(Err("README refreshed but project could not be retrieved"));
    }
    o := Returned(Ok(result.data));
  }

  /** The `SET` list of `refreshProjectReadme`: the new README, stamped `now`, and nothing
      else but `updatedAt`. */
  function ReadmeRefresh(readme: string, now: int): (c: ProjectChange)
    ensures forall p :: (ApplyProjectChange(c)(p)
      == p.(cachedReadme := Some(readme), readmeUpdatedAt := Some(now), updatedAt := now))
  {
    ProjectChange(None, Absent, Absent, Absent, Absent, None, None, Present(readme), Present(now), now)
  }

  function NotProject(projectId: string): ProjectRecord -> bool {
    (p: ProjectRecord) => p.id != projectId
  }

  /** `deleteProject`. */
  method DeleteProject(db: Database, session: Option<SessionUser>, projectId: string)
    returns (o: Outcome<ActionResult<Unit>>)
    modifies db`projects
    ensures RequireAdmin(session).Redirect? ==>
      o == Redirected(RequireAdmin(session).path) && db.projects == old(db.projects)
    ensures RequireAdmin(session).Pass? && projectId == "" ==>
      o == Returned(Err("Project ID is required")) && db.projects == old(db.projects)
    ensures RequireAdmin(session).Pass? && projectId != "" && First(ProjectWithId(projectId), old(db.projects)).None? ==>
      o == Returned(Err("Project not found")) && db.projects == old(db.projects)
    ensures RequireAdmin(session).Pass? && projectId != "" && First(ProjectWithId(projectId), old(db.projects)).Some? ==>
      o == Returned(Ok(Unit)) && db.projects == Filter(NotProject(projectId), old(db.projects))
  {
    var gate := RequireAdmin(session);
    if gate.Redirect? {
      return Redirected(gate.path);
    }
    if projectId == "" {
      return Returned(Err("Project ID is required"));
    }
    if First(ProjectWithId(projectId), db.projects).None? {
      return Returned(Err("Project not found"));
    }
    db.projects := Filter(NotProject(projectId), db.projects);
    o := Returned(Ok(Unit));
  }
}
