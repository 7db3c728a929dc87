/** The admin user list and role changes. */
module Admin {
  import opened Wrappers
  import opened Schema
  import opened Types
  import opened Seqs
  import opened Ordering
  import opened Session

  function UserToView(u: UserRecord): UserView {
    UserView(u.id, u.name, u.email, u.image, u.role, u.createdAt)
  }

  function UserNewestFirst(u: UserRecord): int { -u.createdAt }
  function ViewNewestFirst(v: UserView): int { -v.createdAt }

  /** `getUsers`: every user, newest first, for an admin. */
  function GetUsers(db: Database, session: Option<SessionUser>): (o: Outcome<ActionResult<seq<UserView>>>)
    reads db
    ensures RequireAdmin(session).Redirect? <==> o.Redirected?
    ensures o.Redirected? ==> o.path == RequireAdmin(session).path
    ensures o.Returned? ==>
      o.result == Ok(Map(UserToView, SortBy(db.users, UserNewestFirst)))
  {
    match RequireAdmin(session)
    case Redirect(p) => Redirected(p)
    case Pass(_) => Returned(Ok(Map(UserToView, SortBy(db.users, UserNewestFirst))))
  }

  /** The user list holds every user exactly as often as the table does, newest first. */
  lemma UserListIsAllNewestFirst(users: seq<UserRecord>)
    ensures multiset(Map(UserToView, SortBy(users, UserNewestFirst))) == multiset(Map(UserToView, users))
    ensures SortedBy(Map(UserToView, SortBy(users, UserNewestFirst)), ViewNewestFirst)
  {
    var sorted := SortBy(users, UserNewestFirst);
    MapSortBy(UserToView, users, UserNewestFirst);
    var list := Map(UserToView, sorted);
    forall i, j | 0 <= i < j < |list| ensures ViewNewestFirst(list[i]) <= ViewNewestFirst(list[j]) {
      assert list[i] == UserToView(sorted[i]) && list[j] == UserToView(sorted[j]);
    }
  }

  /** `UPDATE users SET role = r WHERE id = target`. */
  function SetRole(rows: seq<UserRecord>, target: string, role: Role): (r: seq<UserRecord>)
    ensures |r| == |rows|
    ensures forall i :: 0 <= i < |rows| ==>
      r[i] == if rows[i].id == target then rows[i].(role := role) else rows[i]
  {
    if rows == [] then []
    else [if rows[0].id == target then rows[0].(role := role) else rows[0]] + SetRole(rows[1..], target, role)
  }

  /** The notice a role change sends to the changed user. */
  function RoleNotice(noticeId: string, userId: string, role: Role, now: int): NotificationRecord {
    NotificationRecord(noticeId, userId, RoleChanged, "Your role has been changed to " + RoleName(role),
                       None, false, now)
  }

  /** `setUserRole`. A signed-in non-admin does not get a result: the action throws. */
  method SetUserRole(db: Database, session: Option<SessionUser>, userId: string, role: Role,
                     noticeId: string, now: int) returns (o: Outcome<ActionResult<Unit>>)
    modifies db`users, db`notifications
    ensures RequireAuth(session).Redirect? ==>
      o == Redirected("/auth/login")
      && db.users == old(db.users) && db.notifications == old(db.notifications)
    ensures RequireAuth(session).Pass? && session.value.role != Admin ==>
      o == Threw("Unauthorized")
      && db.users == old(db.users) && db.notifications == old(db.notifications)
    ensures RequireAdmin(session).Pass? && userId == session.value.id ==>
      o == Returned(Err("Cannot change your own role"))
      && db.users == old(db.users) && db.notifications == old(db.notifications)
    ensures RequireAdmin(session).Pass? && userId != session.value.id
            && First(UserWithId(userId), old(db.users)).None? ==>
      o == Returned(Err("User not found"))
      && db.users == old(db.users) && db.notifications == old(db.notifications)
    ensures RequireAdmin(session).Pass? && userId != session.value.id
            && First(UserWithId(userId), old(db.users)).Some? ==>
      o == Returned(Ok(Unit))
      && db.users == SetRole(old(db.users), userId, role)
      && db.notifications == old(db.notifications) + [RoleNotice(noticeId, userId, role, now)]
  {
    var gate := RequireAuth(session);
    if gate.Redirect? {
      return Redirected(gate.path);
    }
    var currentUser := gate.user;
    if currentUser.role != Admin {
      return Threw("Unauthorized");
    }
    if userId == currentUser.id {
      return Returned(Err("Cannot change your own role"));
    }
    var target := First(UserWithId(userId), db.users);
    if target.None? {
      return Returned(Err("User not found"));
    }
    db.users := SetRole(db.users, userId, role);
    db.notifications := db.notifications + [RoleNotice(noticeId, userId, role, now)];
    o := Returned(Ok(Unit));
  }

  /** A role change touches only the role of the target's rows, and sets it even when it
      already had that value. */
  lemma SetRoleOnlyTarget(rows: seq<UserRecord>, target: string, role: Role)
    ensures forall i :: 0 <= i < |rows| ==> SetRole(rows, target, role)[i].(role := rows[i].role) == rows[i]
    ensures forall i :: 0 <= i < |rows| && rows[i].id == target ==> SetRole(rows, target, role)[i].role == role
    ensures forall i :: 0 <= i < |rows| && rows[i].id != target ==> SetRole(rows, target, role)[i] == rows[i]
  {
  }

  /** The notice message names the new role. */
  lemma RoleNoticeText(noticeId: string, userId: string, now: int)
    ensures RoleNotice(noticeId, userId, Admin, now).message == "Your role has been changed to admin"
    ensures RoleNotice(noticeId, userId, User, now).message == "Your role has been changed to user"
    ensures RoleNotice(noticeId, userId, Admin, now).referenceId.None?
  {
  }
}
