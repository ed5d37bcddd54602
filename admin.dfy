/** src/app/admin/page.tsx: user management. Only a signed-in admin gets
    the page; every other visitor is sent back to the team dashboard. The
    page refuses to let the current user demote themselves and mirrors a
    successful role change in its local user list. */
module Admin {
  import opened Wrappers
  import opened Inventory
  import opened Profiles

  /** The self-demotion guard of handleRoleChange: the target is the signed-in
      user and the new role is not admin. With nobody signed in `user?.id` is
      undefined and matches no id. */
  predicate SelfDemotion(current: Option<User>, userId: string, newRole: string)
  {
    current.Some? && userId == current.value.id && newRole != ADMIN
  }

  /** Who passes the guard: a change of any other user's role, or the current
      user's own role set to admin. */
  lemma GuardPasses(current: User, userId: string, newRole: string)
    ensures !SelfDemotion(Some(current), userId, newRole) <==> userId != current.id || newRole == ADMIN
    ensures !SelfDemotion(None, userId, newRole)
  {
  }

  /** The role selector is disabled on the current user's own row. */
  predicate SelectorDisabled(row: Profile, current: Option<User>)
  {
    current.Some? && row.id == current.value.id
  }

  /** The guard only ever fires for a row whose selector is disabled, so
      through the page it is a second line of defence. */
  lemma GuardBehindDisabledSelector(row: Profile, current: Option<User>, newRole: string)
    requires SelfDemotion(current, row.id, newRole)
    ensures SelectorDisabled(row, current)
  {
  }

  /** Where fetchUserAndProfile sends the visitor. */
  datatype Route = Stay | ToTeamDashboard

  class Page {
    var user: Option<User>
    var profile: Option<Profile>
    var allUsers: seq<Profile>
    var loading: bool
    var route: Route

    constructor ()
      ensures user == None && profile == None && allUsers == [] && loading && route == Stay
    {
      user := None;
      profile := None;
      allUsers := [];
      loading := true;
      route := Stay;
    }

    /** The render guard: the table is shown only once loading is over and
        the loaded profile is an admin's. */
    predicate ShowsUsers()
      reads this
    {
      !loading && profile.Some? && profile.value.role == ADMIN
    }

    /** fetchUserAndProfile, with the user list query it starts: nobody
        signed in, no profile or a non-admin profile redirects and leaves the
        list unfetched; an admin gets the list, ordered by email by the
        database. */
    method FetchUserAndProfile(signedIn: Option<User>, profileReply: Reply<Profile>, usersReply: Reply<seq<Profile>>)
      returns (toast: Toast)
      modifies this
      ensures ShowsUsers() <==> signedIn.Some? && profileReply.Ok? && profileReply.value.role == ADMIN
      ensures route == ToTeamDashboard <==> !ShowsUsers()
      ensures !ShowsUsers() ==> allUsers == old(allUsers)
      ensures signedIn.None? ==> toast == NoToast && loading && user == old(user) && profile == old(profile)
      ensures signedIn.Some? && profileReply.Failed? ==>
        toast == ErrorToast("Could not fetch your user profile.") && loading && user == signedIn
        && profile == old(profile)
      ensures signedIn.Some? && profileReply.Ok? && profileReply.value.role != ADMIN ==>
        toast == ErrorToast("You don't have permission to view this page.") && loading && user == signedIn
        && profile == Some(profileReply.value)
      ensures ShowsUsers() ==>
        user == signedIn && profile == Some(profileReply.value)
        && (usersReply.Failed? ==> toast == ErrorToast("Failed to fetch user list.") && allUsers == old(allUsers))
        && (usersReply.Ok? ==> toast == NoToast && allUsers == usersReply.value)
    {
      loading := true;
      toast := NoToast;
      if signedIn.None? {
        route := ToTeamDashboard;
        return;
      }
      user := signedIn;
      if profileReply.Failed? {
        toast := ErrorToast("Could not fetch your user profile.");
        route := ToTeamDashboard;
        return;
      }
      profile := Some(profileReply.value);
      if profileReply.value.role != ADMIN {
        toast := ErrorToast("You don't have permission to view this page.");
        route := ToTeamDashboard;
        return;
      }
      match usersReply {
        case Failed(_) =>
          toast := ErrorToast("Failed to fetch user list.");
        case Ok(users) =>
          allUsers := users;
      }
      loading := false;
      route := Stay;
    }

    /** handleRoleChange: a self-demotion is refused without calling the
        edge function; otherwise the call is made and, if it succeeds, the
        entries with that id take the new role in the local list. */
    method HandleRoleChange(userId: string, newRole: string, reply: Reply<()>)
      returns (invoked: bool, toast: Toast)
      modifies this`allUsers
      ensures invoked <==> !SelfDemotion(user, userId, newRole)
      ensures !invoked ==> toast == ErrorToast("You cannot remove your own admin status.") && allUsers == old(allUsers)
      ensures invoked && reply.Failed? ==>
        toast == ErrorToast("Failed to update role: " + reply.message) && allUsers == old(allUsers)
      ensures invoked && reply.Ok? ==>
        toast == SuccessToast("User role updated successfully!") && allUsers == SetRole(old(allUsers), userId, newRole)
    {
      if SelfDemotion(user, userId, newRole) {
        return false, ErrorToast("You cannot remove your own admin status.");
      }
      invoked := true;
      match reply
      case Failed(message) =>
        toast := ErrorToast("Failed to update role: " + message);
      case Ok(_) =>
        toast := SuccessToast("User role updated successfully!");
        allUsers := SetRole(allUsers, userId, newRole);
    }
  }
}
