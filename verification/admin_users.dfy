/** User administration (`GET` and `POST /api/admin/users`): admin-only listing and a guarded, email-unique insert. */
module AdminUsers {
  import opened Wrappers
  import opened Domain
  import opened Sorting

  predicate IsAdmin(s: Store, session: Option<nat>) {
    session.Some? && session.value < |s.users| && s.users[session.value].role == Admin
  }

  /** The status of the first failing guard shared by both verbs: 401 without a session, 403 unless an admin. */
  function Gate(s: Store, session: Option<nat>): (r: Option<nat>)
    ensures r.None? <==> IsAdmin(s, session)
    ensures session.None? ==> r == Some(401)
    ensures session.Some? && !IsAdmin(s, session) ==> r == Some(403)
  {
    if session.None? then Some(401) else if !IsAdmin(s, session) then Some(403) else None
  }

  datatype ListReply = ListReply(status: nat, users: seq<User>)

  /** `user.findMany({ orderBy: { createdAt: "desc" } })` behind the admin guard. */
  function ListUsers(s: Store, session: Option<nat>): (r: ListReply)
    ensures r.status == 200 <==> IsAdmin(s, session)
    ensures r.status != 200 ==> r.status == Gate(s, session).value && r.users == []
    ensures r.status == 200 ==> multiset(r.users) == multiset(s.users)
    ensures r.status == 200 ==> forall i, j :: 0 <= i < j < |r.users| ==> r.users[i].createdAt >= r.users[j].createdAt
  {
    var gate := Gate(s, session);
    if gate.Some? then ListReply(gate.value, [])
    else
      var sorted := SortBy(s.users, (u: User) => -u.createdAt);
      assert forall i, j :: 0 <= i < j < |sorted| ==> -sorted[i].createdAt <= -sorted[j].createdAt;
      ListReply(200, sorted)
  }

  /** The JSON body; a missing field is "". */
  datatype NewUser = NewUser(email: string, firstName: string, lastName: string, role: string)

  datatype CreateReply = CreateReply(store: Store, status: nat, user: Option<User>)

  predicate EmailTaken(users: seq<User>, email: string) {
    exists i :: 0 <= i < |users| && users[i].email == email
  }

  predicate EmailsUnique(users: seq<User>) {
    forall i, j :: 0 <= i < j < |users| ==> users[i].email != users[j].email
  }

  /**
    The insert. The role string is not checked by the handler; the role
    column only accepts enum values, so any other value fails the write (500).
   */
  function CreateUser(s: Store, session: Option<nat>, body: NewUser, now: int): (r: CreateReply)
    ensures Gate(s, session).Some? ==> r.status == Gate(s, session).value && r.store == s
    ensures IsAdmin(s, session) && (body.email == "" || body.firstName == "" || body.lastName == "" || body.role == "") ==>
      r.status == 400 && r.store == s
    ensures IsAdmin(s, session) && EmailTaken(s.users, body.email) ==> r.status == 400 && r.store == s
    ensures r.status == 201 <==>
      && IsAdmin(s, session) && body.email != "" && body.firstName != "" && body.lastName != ""
      && !EmailTaken(s.users, body.email) && ParseRole(body.role).Some?
    ensures r.status != 201 ==> r.store == s && r.user.None?
    ensures r.status == 201 ==>
      && r.user == Some(User(body.firstName, body.lastName, body.email, ParseRole(body.role).value, false, now))
      && r.store == s.(users := s.users + [r.user.value])
    ensures EmailsUnique(s.users) ==> EmailsUnique(r.store.users)
    ensures WellFormed(s) ==> WellFormed(r.store)
  {
    var gate := Gate(s, session);
    if gate.Some? then CreateReply(s, gate.value, None)
    else if body.email == "" || body.firstName == "" || body.lastName == "" || body.role == "" then CreateReply(s, 400, None)
    else if EmailTaken(s.users, body.email) then CreateReply(s, 400, None)
    else
      var role := ParseRole(body.role);
      if role.None? then CreateReply(s, 500, None)
      else
        var u := User(body.firstName, body.lastName, body.email, role.value, false, now);
        var s' := s.(users := s.users + [u]);
        assert forall i :: 0 <= i < |s.messages| ==> MessageWellFormed(s, s.messages[i]) ==> MessageWellFormed(s', s.messages[i]);
        CreateReply(s', 201, Some(u))
  }
}
