/** The admin's user table: the search and status filter over the directory, the
    block/unblock menu entry, and the two-step delete confirmation. */
module ManageUsers {
  import opened Common
  import Text
  import UD = UserDirectory

  /** The filter value that disables the status filter. */
  const All := "all"

  /** The filter callback: the lower-cased term occurs in the lower-cased name or
      email, and the status filter is off or names the entry's status. The empty term
      occurs everywhere, and a filter naming a status admits that status only. */
  function MatchesUser(u: UD.PlatformUser, searchTerm: string, statusFilter: string): (b: bool)
    ensures searchTerm == "" && statusFilter == All ==> b
    ensures forall s :: statusFilter == UD.StatusName(s) && b ==> u.status == s
  {
    Text.ContainsEmpty(Text.Lower(u.name));
    (Text.Contains(Text.Lower(u.name), Text.Lower(searchTerm)) ||
     Text.Contains(Text.Lower(u.email), Text.Lower(searchTerm))) &&
    (statusFilter == All || UD.StatusName(u.status) == statusFilter)
  }

  /** The filter callback for one pair of filter values, as the value handed to `filter`. */
  function UserKeeper(searchTerm: string, statusFilter: string): UD.PlatformUser -> bool {
    (u: UD.PlatformUser) => MatchesUser(u, searchTerm, statusFilter)
  }

  /** `filteredUsers`: the entries the callback keeps, in directory order. */
  function FilteredUsers(us: seq<UD.PlatformUser>, searchTerm: string, statusFilter: string): (r: seq<UD.PlatformUser>)
    ensures IsSubsequence(r, us)
    ensures forall u :: u in r <==> u in us && MatchesUser(u, searchTerm, statusFilter)
    ensures |r| == Count(UserKeeper(searchTerm, statusFilter), us)
  {
    Filter(UserKeeper(searchTerm, statusFilter), us)
  }

  /** The page's initial filters, an empty term and `all`, show the whole directory. */
  lemma InitialFiltersShowAll(us: seq<UD.PlatformUser>)
    ensures FilteredUsers(us, "", All) == us
  {
  }

  // ---------------------------------------------------------------- block toggle

  datatype MenuAction = Block | Unblock

  /** The menu offers Unblock for a blocked entry and Block for any other. */
  function ToggleAction(s: UD.UserStatus): (a: MenuAction)
    ensures a == Unblock <==> s == UD.Blocked
  {
    if s == UD.Blocked then Unblock else Block
  }

  /** The status the offered action leads to, which always differs from the current one. */
  function ToggleTarget(s: UD.UserStatus): (t: UD.UserStatus)
    ensures t != s
    ensures ToggleAction(s) == Unblock ==> t == UD.Active
    ensures ToggleAction(s) == Block ==> t == UD.Blocked
  {
    match ToggleAction(s)
    case Unblock => UD.Active
    case Block => UD.Blocked
  }

  /** Clicking the toggle entry of a row: unblock a blocked user, block any other. */
  method ClickToggle(dir: UD.Directory, u: UD.PlatformUser)
    requires dir.Valid()
    modifies dir
    ensures dir.Valid()
    ensures dir.users == UD.Updated(old(dir.users), u.id, UD.StatusPatch(ToggleTarget(u.status)))
  {
    if ToggleAction(u.status) == Unblock {
      dir.UnblockUser(u.id);
    } else {
      dir.BlockUser(u.id);
    }
  }

  // ---------------------------------------------------------------- delete confirmation

  /** The page's delete state: the user picked for deletion and whether the dialog shows. */
  class DeleteFlow {
    var selectedUserId: Option<string>
    var dialogOpen: bool

    constructor ()
      ensures selectedUserId == None && !dialogOpen
    {
      selectedUserId := None;
      dialogOpen := false;
    }

    /** The Delete entry of a row: remember its id and open the dialog. */
    method ChooseDelete(id: string)
      modifies this
      ensures selectedUserId == Some(id) && dialogOpen
    {
      selectedUserId := Some(id);
      dialogOpen := true;
    }

    /** `onOpenChange`: the dialog shows or hides; the selection is kept. */
    method SetOpen(open: bool)
      modifies this
      ensures dialogOpen == open && selectedUserId == old(selectedUserId)
    {
      dialogOpen := open;
    }

    /** `handleDeleteUser`: with a selected id that is not the empty string, delete it,
        then clear the selection and close the dialog; otherwise do nothing. */
    method Confirm(dir: UD.Directory)
      requires dir.Valid()
      modifies this, dir
      ensures dir.Valid()
      ensures old(selectedUserId).Some? && old(selectedUserId).value != "" ==>
                dir.users == UD.Deleted(old(dir.users), old(selectedUserId).value) &&
                dir.stored == Persisted(dir.users, old(dir.stored)) &&
                selectedUserId == None && !dialogOpen
      ensures !(old(selectedUserId).Some? && old(selectedUserId).value != "") ==>
                dir.users == old(dir.users) && dir.stored == old(dir.stored) &&
                selectedUserId == old(selectedUserId) && dialogOpen == old(dialogOpen)
    {
      if selectedUserId.Some? && selectedUserId.value != "" {
        dir.DeleteUser(selectedUserId.value);
        dialogOpen := false;
        selectedUserId := None;
      }
    }
  }

  /** Choosing Delete on a row and confirming removes every entry with that id and ends
      with the dialog closed and nothing selected. */
  method DeleteWithConfirmation(flow: DeleteFlow, dir: UD.Directory, id: string)
    requires dir.Valid() && id != ""
    modifies flow, dir
    ensures dir.Valid()
    ensures dir.users == UD.Deleted(old(dir.users), id)
    ensures forall u :: u in dir.users ==> u.id != id
    ensures flow.selectedUserId == None && !flow.dialogOpen
  {
    flow.ChooseDelete(id);
    flow.Confirm(dir);
  }
}
