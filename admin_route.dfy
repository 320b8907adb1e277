/** The admin route guard: it looks up the signed-in user's profile role and renders a
    placeholder while checking, the guarded children for an admin, and otherwise a toast
    and a redirect home. */
module AdminRoute {
  import opened Common
  import opened Domain

  const AdminRequiredMessage := "Admin access required"
  const AdminRole := "admin"

  /** The `role` column of the user's `profiles` row; `None` for a null role. */
  datatype ProfileRow = ProfileRow(role: Option<string>)

  datatype Gate = Placeholder | Redirect(effect: Effect) | Children

  /** The render decision: the placeholder while loading, the children for an admin, and
      for anyone else an error toast with a redirect to `/`. */
  function Decide(loading: bool, isAdmin: bool): (g: Gate)
    ensures g.Placeholder? <==> loading
    ensures g.Children? <==> !loading && isAdmin
    ensures g.Redirect? <==> !loading && !isAdmin
    ensures g.Redirect? ==> g.effect == Effect(ErrorToast(AdminRequiredMessage), Some(HomeRoute))
  {
    if loading then Placeholder
    else if !isAdmin then Redirect(Effect(ErrorToast(AdminRequiredMessage), Some(HomeRoute)))
    else Children
  }

  /** The component's state: `loading` and `isAdmin`. */
  class AdminGate {
    var loading: bool
    var isAdmin: bool

    constructor ()
      ensures loading && !isAdmin
      ensures Decide(loading, isAdmin) == Placeholder
    {
      loading, isAdmin := true, false;
    }

    /** `checkAdmin`: `user` is what `getUser()` returned and `lookup` the answer of the
        single-row `profiles` select for that user: an error, or the row if there is
        one. The lookup is consulted only when there is a user. Every path ends loading. */
    method CheckAdmin(user: Option<UserId>, lookup: Result<Option<ProfileRow>>)
      modifies this
      ensures !loading
      ensures isAdmin <==>
        user.Some? && lookup.Ok? && lookup.value.Some? && lookup.value.value.role == Some(AdminRole)
      ensures Decide(loading, isAdmin) == if isAdmin then Children
        else Redirect(Effect(ErrorToast(AdminRequiredMessage), Some(HomeRoute)))
    {
      if user.None? {
        isAdmin := false;
        loading := false;
        return;
      }
      if lookup.Err? || lookup.value.None? || lookup.value.value.role != Some(AdminRole) {
        isAdmin := false;
        loading := false;
        return;
      }
      isAdmin := true;
      loading := false;
    }
  }
}
