/** The user management page: the search filter over the user list, the
    "N Users Found" count, the role selector and the in-progress flag that
    locks one user's selector while its role change is on the way. */
module AdminUsers {
  import opened Wrappers
  import opened Seqs
  import opened Strings
  import opened Search
  import opened Models
  import opened MedicalHandler

  /** A row of `/api/v1/users` as the page reads it. */
  datatype UserView = UserView(id: nat, email: string, name: string, role: string, picture: string)

  predicate Matches(u: UserView, term: string)
  {
    MatchesSearch(u.name, u.email, term)
  }

  /** `filteredUsers`: the users whose lowercased name or email contains the
      lowercased term, in the order the server listed them. */
  function FilteredUsers(users: seq<UserView>, term: string): (r: seq<UserView>)
    ensures forall u :: u in r <==> u in users && Matches(u, term)
    ensures IsSubsequence(r, users)
  {
    FilterIsSubsequence(users, (u: UserView) => Matches(u, term));
    Filter(users, (u: UserView) => Matches(u, term))
  }

  /** With an empty search box every user is listed, in order. */
  lemma EmptySearchKeepsAll(users: seq<UserView>)
    ensures FilteredUsers(users, "") == users
  {
    var p := (u: UserView) => Matches(u, "");
    forall u | u in users ensures p(u) {
      EmptySearchMatches(u.name, u.email);
    }
    FilterAll(users, p);
  }

  /** The number shown before "Users Found": never more than the users
      loaded, and all of them exactly when every user matches. */
  function FoundCount(users: seq<UserView>, term: string): (n: nat)
    ensures n == |FilteredUsers(users, term)|
    ensures n <= |users|
    ensures n == |users| <==> forall i :: 0 <= i < |users| ==> Matches(users[i], term)
  {
    FilterKeepsAllIff(users, (u: UserView) => Matches(u, term));
    |FilteredUsers(users, term)|
  }

  /** The options of the role selector, in display order. */
  const RoleOptions: seq<string> := [RolePatient, RoleDoctor, RoleAdmin]

  /** The selector offers exactly the three roles of the user model, each once. */
  lemma RoleOptionsAreTheRoles()
    ensures forall r :: r in RoleOptions <==> IsRole(r)
    ensures |RoleOptions| == 3
    ensures forall i, j :: 0 <= i < j < |RoleOptions| ==> RoleOptions[i] != RoleOptions[j]
  {
  }

  /** The selector of user `userId` is disabled, and the spinner shown next
      to it, while `updating` holds that id. */
  predicate SelectorLocked(updating: Option<nat>, userId: nat)
  {
    updating == Some(userId)
  }

  /** While one user's role is being changed, that user's selector is the
      only one locked; once the flag is cleared no selector is. */
  lemma OnlyUpdatedUserLocked(id: nat, other: nat)
    ensures SelectorLocked(Some(id), other) <==> other == id
    ensures !SelectorLocked(None, other)
  {
  }

  /** The PUT that `updateUserRole` sends. */
  datatype RoleRequest = RoleRequest(path: string, role: string)

  function RoleRequestFor(id: nat, role: string): (req: RoleRequest)
    ensures req.role == role
    ensures req.path == "/api/v1/users/" + NatToString(id) + "/role"
  {
    RoleRequest("/api/v1/users/" + NatToString(id) + "/role", role)
  }

  /** The role path carries the id the handler parses back from its `:id`
      segment, as the appointment paths do. */
  lemma RolePathCarriesId(id: nat, role: string)
    requires id <= MaxUint32
    ensures var p := RoleRequestFor(id, role).path;
      && |p| >= 19 && p[..14] == "/api/v1/users/" && p[|p| - 5..] == "/role"
      && MedicalHandler.PathId(p[14..|p| - 5]) == id
  {
    var digits := NatToString(id);
    var p := RoleRequestFor(id, role).path;
    assert p == "/api/v1/users/" + digits + "/role";
    assert p[14..|p| - 5] == digits;
    ParseIdRoundTrip(id);
  }

  /** What `res.data || []` gives: a `null` list becomes empty. */
  function Loaded(data: JsonList<UserView>): (users: seq<UserView>)
    ensures data.Null? ==> users == []
    ensures data.Items? ==> users == data.items
  {
    Elements(data)
  }

  class AdminUsersPage {
    var users: seq<UserView>
    var search: string
    var updating: Option<nat>

    constructor()
      ensures users == [] && search == "" && updating == None
    {
      users := [];
      search := "";
      updating := None;
    }

    /** The users the page lists for its current search box. */
    function Shown(): (r: seq<UserView>)
      reads this
      ensures forall u :: u in r <==> u in users && Matches(u, search)
    {
      FilteredUsers(users, search)
    }

    method SetSearch(term: string)
      modifies this
      ensures search == term
      ensures users == old(users) && updating == old(updating)
    {
      search := term;
    }

    /** `fetchUsers`: a response replaces the list (`null` as empty); a
        failed request leaves the list as it was. */
    method FetchUsers(response: Option<JsonList<UserView>>)
      modifies this
      ensures users == (if response.Some? then Loaded(response.value) else old(users))
      ensures search == old(search) && updating == old(updating)
    {
      if response.Some? {
        users := Loaded(response.value);
      }
    }

    /** The first half of `updateUserRole`: the flag is set to the user's
        id and the role change is sent. */
    method BeginRoleUpdate(id: nat, role: string) returns (req: RoleRequest)
      modifies this
      ensures updating == Some(id)
      ensures req == RoleRequestFor(id, role)
      ensures users == old(users) && search == old(search)
    {
      updating := Some(id);
      req := RoleRequestFor(id, role);
    }

    /** The second half: on success the list is fetched again; in every
        case the flag is cleared. */
    method FinishRoleUpdate(accepted: bool, refetch: Option<JsonList<UserView>>)
      modifies this
      ensures updating == None
      ensures users == (if accepted && refetch.Some? then Loaded(refetch.value) else old(users))
      ensures search == old(search)
    {
      if accepted {
        FetchUsers(refetch);
      }
      updating := None;
    }

    /** `updateUserRole` as a whole. `busy` is the flag while the request
        is outstanding: it holds the user's id then and is `null` after,
        whether or not the server accepted the change. */
    method UpdateUserRole(id: nat, role: string, accepted: bool, refetch: Option<JsonList<UserView>>)
      returns (req: RoleRequest, busy: Option<nat>)
      modifies this
      ensures req == RoleRequestFor(id, role)
      ensures busy == Some(id) && SelectorLocked(busy, id)
      ensures updating == None && forall u :: !SelectorLocked(updating, u)
      ensures users == (if accepted && refetch.Some? then Loaded(refetch.value) else old(users))
      ensures search == old(search)
    {
      req := BeginRoleUpdate(id, role);
      busy := updating;
      FinishRoleUpdate(accepted, refetch);
    }
  }
}
