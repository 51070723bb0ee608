/** The user table of the admin dashboard: joining profile rows with the auth service's users,
    the local updates after a role change or a deletion, and who may see and act on what. */
module AdminDashboard {
  import opened Common
  import opened Seqs

  /** A row of the `profiles` table. */
  datatype Profile = Profile(id: Id, isAdmin: bool, createdAt: string)

  /** A user as the auth service lists it; `email` and `lastSignInAt` may be missing. */
  datatype AuthUser = AuthUser(id: Id, email: Option<string>, lastSignInAt: Option<string>)

  /** A row of the dashboard's table. */
  datatype AdminUser = AdminUser(
    id: Id,
    email: string,
    isAdmin: bool,
    createdAt: string,
    lastSignInAt: Option<string>)

  /** The signed-in user held by the auth store. */
  datatype SessionUser = SessionUser(id: Id, email: string, isAdmin: bool)

  function AuthHasId(id: Id): AuthUser -> bool {
    (u: AuthUser) => u.id == id
  }

  /** `authUsers.find(u => u.id === id)`: the first auth user with that id, if any. */
  function FindAuthUser(auth: seq<AuthUser>, id: Id): (r: Option<AuthUser>)
    ensures r.None? <==> forall k :: 0 <= k < |auth| ==> auth[k].id != id
    ensures r.Some? ==> exists k :: 0 <= k < |auth| && auth[k] == r.value && r.value.id == id
                                    && forall j :: 0 <= j < k ==> auth[j].id != id
  {
    var i := FindIndex(auth, AuthHasId(id));
    if i == -1 then
      assert forall k :: 0 <= k < |auth| ==> !AuthHasId(id)(auth[k]);
      None
    else
      assert forall j :: 0 <= j < i ==> !AuthHasId(id)(auth[j]);
      Some(auth[i])
  }

  function CombineRow(p: Profile, auth: seq<AuthUser>): AdminUser {
    var u := FindAuthUser(auth, p.id);
    AdminUser(
      p.id,
      if u.Some? then OrEmpty(u.value.email) else "",
      p.isAdmin,
      p.createdAt,
      if u.Some? then OrNull(u.value.lastSignInAt) else None)
  }

  /** The `combinedUsers` join of `loadUsers`: one row per profile, in profile order. The id,
      the admin flag and the creation time are the profile's; the email and the last sign-in
      time are those of the first auth user with the same id, or `''` and `null` without one. */
  function CombineUsers(profiles: seq<Profile>, auth: seq<AuthUser>): (r: seq<AdminUser>)
    ensures |r| == |profiles|
    ensures forall i :: 0 <= i < |profiles| ==>
      r[i].id == profiles[i].id && r[i].isAdmin == profiles[i].isAdmin
      && r[i].createdAt == profiles[i].createdAt
    ensures forall i :: 0 <= i < |profiles| && FindAuthUser(auth, profiles[i].id).None? ==>
      r[i].email == "" && r[i].lastSignInAt.None?
    ensures forall i :: 0 <= i < |profiles| && FindAuthUser(auth, profiles[i].id).Some? ==>
      var u := FindAuthUser(auth, profiles[i].id).value;
      r[i].email == OrEmpty(u.email) && r[i].lastSignInAt == OrNull(u.lastSignInAt)
  {
    seq(|profiles|, i requires 0 <= i < |profiles| => CombineRow(profiles[i], auth))
  }

  /** When the auth service lists each id once, a profile's email is that of its own auth user. */
  lemma CombineUsersUniqueAuth(profiles: seq<Profile>, auth: seq<AuthUser>, i: nat, k: nat)
    requires forall a, b :: 0 <= a < b < |auth| ==> auth[a].id != auth[b].id
    requires i < |profiles| && k < |auth| && auth[k].id == profiles[i].id
    ensures CombineUsers(profiles, auth)[i].email == OrEmpty(auth[k].email)
    ensures CombineUsers(profiles, auth)[i].lastSignInAt == OrNull(auth[k].lastSignInAt)
  {
    var u := FindAuthUser(auth, profiles[i].id);
    assert u.Some?;
    var k' :| 0 <= k' < |auth| && auth[k'] == u.value && u.value.id == profiles[i].id
              && forall j :: 0 <= j < k' ==> auth[j].id != profiles[i].id;
    assert k' == k;
  }

  /** The local update of `toggleAdmin(id, isAdmin)`: rows with that id get the flag
      `!isAdmin`; every other row, and every other field, is unchanged. */
  function FlipAdmin(users: seq<AdminUser>, id: Id, isAdmin: bool): (r: seq<AdminUser>)
    ensures |r| == |users|
    ensures forall i :: 0 <= i < |users| && users[i].id == id ==> r[i] == users[i].(isAdmin := !isAdmin)
    ensures forall i :: 0 <= i < |users| && users[i].id != id ==> r[i] == users[i]
  {
    seq(|users|, i requires 0 <= i < |users| => if users[i].id == id then users[i].(isAdmin := !isAdmin) else users[i])
  }

  /** Pressing the button twice, each time with the flag the row then shows, restores the table. */
  lemma FlipAdminTwice(users: seq<AdminUser>, id: Id, isAdmin: bool)
    requires forall i :: 0 <= i < |users| && users[i].id == id ==> users[i].isAdmin == isAdmin
    ensures FlipAdmin(FlipAdmin(users, id, isAdmin), id, !isAdmin) == users
  {
  }

  function RowNotId(id: Id): AdminUser -> bool {
    (u: AdminUser) => u.id != id
  }

  /** The local update of `deleteUser(id)`: the rows with that id go, the others stay in order. */
  function RemoveUser(users: seq<AdminUser>, id: Id): (r: seq<AdminUser>)
    ensures |r| <= |users|
    ensures forall i :: 0 <= i < |r| ==> r[i] in users && r[i].id != id
    ensures forall i :: 0 <= i < |users| && users[i].id != id ==> users[i] in r
  {
    Filter(users, RowNotId(id))
  }

  /** Deletion splits over concatenation, so the remaining rows keep their order. */
  lemma RemoveUserKeepsOrder(a: seq<AdminUser>, b: seq<AdminUser>, id: Id)
    ensures RemoveUser(a + b, id) == RemoveUser(a, id) + RemoveUser(b, id)
  {
    FilterAppend(a, b, RowNotId(id));
  }

  /** The access guard: only a signed-in administrator stays on the page. */
  predicate MayOpen(current: Option<SessionUser>) {
    current.Some? && current.value.isAdmin
  }

  /** `disabled={user.id === currentUser?.id}`: the row's buttons are enabled unless the row
      is the current user's own. */
  function ActionsEnabled(row: AdminUser, current: Option<SessionUser>): (r: bool)
    ensures r <==> current.None? || current.value.id != row.id
  {
    !(current.Some? && current.value.id == row.id)
  }

  /** An administrator can never toggle, block or delete their own row. */
  lemma NoActionOnOwnRow(users: seq<AdminUser>, current: SessionUser)
    ensures forall i :: 0 <= i < |users| && users[i].id == current.id ==> !ActionsEnabled(users[i], Some(current))
  {
  }

  /** The state of the dashboard component. */
  class Dashboard {
    var users: seq<AdminUser>
    var loading: bool

    constructor ()
      ensures users == [] && loading
    {
      users, loading := [], true;
    }

    /** `loadUsers`, given what the two backend calls returned: the profile select and the
        auth service's user list (`None` when it reported an error). The table is replaced
        only when both succeed; loading ends in every case. */
    method LoadUsers(profiles: Response<seq<Profile>>, auth: Option<seq<AuthUser>>)
      modifies this
      ensures !loading
      ensures profiles.Ok? && profiles.data.Some? && auth.Some? ==> users == CombineUsers(profiles.data.value, auth.value)
      ensures !(profiles.Ok? && profiles.data.Some? && auth.Some?) ==> users == old(users)
    {
      if profiles.Ok? && profiles.data.Some? && auth.Some? {
        users := CombineUsers(profiles.data.value, auth.value);
      }
      loading := false;
    }

    /** The mount effect: a visitor who is not a signed-in administrator is redirected and
        nothing is loaded; an administrator's visit loads the table. */
    method Mount(current: Option<SessionUser>, profiles: Response<seq<Profile>>, auth: Option<seq<AuthUser>>)
      returns (redirect: bool)
      modifies this
      ensures redirect <==> !MayOpen(current)
      ensures redirect ==> users == old(users) && loading == old(loading)
      ensures !redirect ==> !loading
      ensures !redirect && profiles.Ok? && profiles.data.Some? && auth.Some? ==>
        users == CombineUsers(profiles.data.value, auth.value)
      ensures !redirect && !(profiles.Ok? && profiles.data.Some? && auth.Some?) ==> users == old(users)
    {
      redirect := !MayOpen(current);
      if !redirect {
        LoadUsers(profiles, auth);
      }
    }

    /** `toggleAdmin(id, isAdmin)`; `saved` is whether the profile update succeeded. */
    method ToggleAdmin(id: Id, isAdmin: bool, saved: bool)
      modifies this`users
      ensures saved ==> users == FlipAdmin(old(users), id, isAdmin)
      ensures !saved ==> users == old(users)
    {
      if saved {
        users := FlipAdmin(users, id, isAdmin);
      }
    }

    /** `toggleBlock(id)`: after a successful ban the table is reloaded. */
    method ToggleBlock(banned: bool, profiles: Response<seq<Profile>>, auth: Option<seq<AuthUser>>)
      modifies this
      ensures banned ==> !loading
      ensures banned && profiles.Ok? && profiles.data.Some? && auth.Some? ==>
        users == CombineUsers(profiles.data.value, auth.value)
      ensures banned && !(profiles.Ok? && profiles.data.Some? && auth.Some?) ==> users == old(users)
      ensures !banned ==> users == old(users) && loading == old(loading)
    {
      if banned {
        LoadUsers(profiles, auth);
      }
    }

    /** `deleteUser(id)`: nothing happens unless the confirmation was accepted and the auth
        service deleted the user. */
    method DeleteUser(id: Id, confirmed: bool, deleted: bool)
      modifies this`users
      ensures confirmed && deleted ==> users == RemoveUser(old(users), id)
      ensures !(confirmed && deleted) ==> users == old(users)
    {
      if confirmed && deleted {
        users := RemoveUser(users, id);
      }
    }
  }
}
