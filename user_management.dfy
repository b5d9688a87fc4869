/** The user administration table (src/modules/admin/components/user-management.tsx):
    the list of users and the role-change and delete flows, with the
    component's React state as the fields of a class. */
module UserManagement {
  import opened Wrappers
  import opened Auth
  import Lists
  import Names

  /** A user as the admin endpoints return it. */
  datatype AdminUser = AdminUser(id: string, email: string, name: Option<string>, image: Option<string>,
                                 role: Role, createdAt: string)

  /** The test `u.id === id`. */
  function IdIs(id: string): AdminUser -> bool {
    (u: AdminUser) => u.id == id
  }

  /** The test `u.id !== id`. */
  function IdIsNot(id: string): AdminUser -> bool {
    (u: AdminUser) => u.id != id
  }

  /** `prev.map(u => u.id === userId ? updated : u)`. */
  function ReplaceUser(users: seq<AdminUser>, userId: string, updated: AdminUser): (r: seq<AdminUser>)
    ensures |r| == |users|
    ensures forall i :: 0 <= i < |users| && users[i].id == userId ==> r[i] == updated
    ensures forall i :: 0 <= i < |users| && users[i].id != userId ==> r[i] == users[i]
  {
    Lists.ReplaceIf(IdIs(userId), users, updated)
  }

  /** `prev.filter(u => u.id !== id)`. */
  function RemoveUser(users: seq<AdminUser>, id: string): (r: seq<AdminUser>)
    ensures forall u :: u in r <==> u in users && u.id != id
    ensures (forall u :: u in users ==> u.id != id) ==> r == users
  {
    Lists.Filter(IdIsNot(id), users)
  }

  /** Removing keeps the order of the users that stay: removing from a
      concatenation removes from each part. */
  lemma RemoveKeepsOrder(a: seq<AdminUser>, b: seq<AdminUser>, id: string)
    ensures RemoveUser(a + b, id) == RemoveUser(a, id) + RemoveUser(b, id)
  {
    Lists.FilterAppend(IdIsNot(id), a, b);
  }

  /** A role change that keeps the id keeps the ids of the list, and a
      removed id is gone for good. */
  lemma EditsAndIds(users: seq<AdminUser>, userId: string, updated: AdminUser, id: string)
    requires updated.id == userId
    ensures forall i :: 0 <= i < |users| ==> ReplaceUser(users, userId, updated)[i].id == users[i].id
    ensures forall u :: u in RemoveUser(users, id) ==> u.id != id
  {
  }

  /** The delete button is offered for every user except the signed-in
      one. */
  predicate CanDelete(u: AdminUser, currentUser: Option<User>) {
    !(currentUser.Some? && u.id == currentUser.value.id)
  }

  /** The signed-in user's own row never offers the delete button; every
      row does when nobody is signed in. */
  lemma OwnRowProtected(u: AdminUser, me: User)
    ensures u.id == me.id ==> !CanDelete(u, Some(me))
    ensures u.id != me.id ==> CanDelete(u, Some(me))
    ensures CanDelete(u, None)
  {
  }

  /** `u.name || u.email`: the text the initials are taken from. */
  function NameOrEmail(u: AdminUser): (s: string)
    ensures TruthyString(u.name) ==> s == u.name.value
    ensures !TruthyString(u.name) ==> s == u.email
  {
    if TruthyString(u.name) then u.name.value else u.email
  }

  /** The avatar initials of a row: at most two characters, none of them a
      lower-case ASCII letter. */
  function RowInitials(u: AdminUser): (r: string)
    ensures |r| <= 2
    ensures forall i :: 0 <= i < |r| ==> !('a' <= r[i] <= 'z')
  {
    Names.Initials(NameOrEmail(u))
  }

  class UserManagement {
    var users: seq<AdminUser>
    var loading: bool
    var error: Option<string>
    var deleteTarget: Option<AdminUser>
    var deleting: bool

    /** The initial state of every `useState`. */
    constructor ()
      ensures users == [] && loading && error.None? && deleteTarget.None? && !deleting
    {
      users, loading, error, deleteTarget, deleting := [], true, None, None, false;
    }

    /** The mount effect, once `getUsers` has resolved or failed. */
    method FinishLoad(res: Result<seq<AdminUser>>)
      modifies this`users, this`error, this`loading
      ensures res.Ok? ==> users == res.value && error == old(error)
      ensures res.Err? ==> users == old(users) && error == Some(res.message)
      ensures !loading
    {
      match res {
        case Ok(us) => users := us;
        case Err(m) => error := Some(m);
      }
      loading := false;
    }

    /** `handleRoleChange`, once `updateUserRole` has answered with the
        updated user or failed: only the entries with that id change, and a
        failure changes nothing. */
    method RoleChange(userId: string, res: Result<AdminUser>)
      modifies this`users
      ensures res.Ok? ==> users == ReplaceUser(old(users), userId, res.value)
      ensures res.Err? ==> users == old(users)
    {
      match res {
        case Ok(u) => users := ReplaceUser(users, userId, u);
        case Err(_) =>
      }
    }

    /** The dialog is open while a target is chosen. */
    predicate DialogOpen()
      reads this
    {
      deleteTarget.Some?
    }

    /** The trash button of a row. */
    method ChooseDelete(u: AdminUser)
      modifies this`deleteTarget
      ensures deleteTarget == Some(u) && DialogOpen()
    {
      deleteTarget := Some(u);
    }

    /** Cancel, or closing the dialog. */
    method CancelDelete()
      modifies this`deleteTarget
      ensures deleteTarget.None? && !DialogOpen()
    {
      deleteTarget := None;
    }

    /** The start of `handleDelete`: nothing without a target; otherwise
        deleting starts and the target is the one to delete. */
    method BeginDelete() returns (target: Option<AdminUser>)
      modifies this`deleting
      ensures target == old(deleteTarget)
      ensures target.None? ==> deleting == old(deleting)
      ensures target.Some? ==> deleting
    {
      target := deleteTarget;
      if target.Some? {
        deleting := true;
      }
    }

    /** The end of `handleDelete` for `target`: on success the users with
        its id are removed and the dialog closes; on failure both stay as
        they were; deleting stops either way. */
    method FinishDelete(target: AdminUser, res: Result<()>)
      modifies this`users, this`deleteTarget, this`deleting
      ensures res.Ok? ==> users == RemoveUser(old(users), target.id) && deleteTarget.None?
      ensures res.Err? ==> users == old(users) && deleteTarget == old(deleteTarget)
      ensures res.Ok? ==> !DialogOpen()
      ensures res.Err? ==> DialogOpen() == old(DialogOpen())
      ensures !deleting
    {
      match res {
        case Ok(_) =>
          users := RemoveUser(users, target.id);
          deleteTarget := None;
        case Err(_) =>
      }
      deleting := false;
    }
  }
}
