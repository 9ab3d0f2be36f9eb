/** The roles popover: a searchable radio list over the cooperative's
    eight fixed roles, and the role chosen. */
module RolesDropdown {
  import opened JsText
  import opened JsArray

  const Roles: seq<string> := [
    "General Assembly",
    "Board of Directors (BOD)",
    "President",
    "Vice-President",
    "Secretary",
    "Assistant Secretary",
    "Treasurer",
    "Assistant Treasurer"
  ]

  /** `roles.filter(role => role.toLowerCase().includes(searchQuery.toLowerCase()))`:
      a role is listed exactly when the lower-cased query occurs in its
      lower-cased text, and the listed roles keep their order. */
  function FilteredRoles(query: string): (r: seq<string>)
    ensures |r| <= |Roles|
    ensures forall role :: role in r <==> role in Roles && MatchesQuery(role, query)
    ensures IsSubsequence(r, Roles)
  {
    Filter(Roles, (role: string) => MatchesQuery(role, query))
  }

  /** The empty query lists all eight roles. */
  lemma EmptyQueryListsAll()
    ensures FilteredRoles("") == Roles
    ensures |FilteredRoles("")| == 8
  {
    forall role | role in Roles ensures MatchesQuery(role, "") {
      MatchesQuerySpec(role, "");
    }
    FilterAll(Roles, (role: string) => MatchesQuery(role, ""));
  }

  /** The roles popover's lack of a role: the empty string, which no radio
      button carries. */
  const NoRole := ""

  /** "President" is a role, and the query "treas" does not list it. */
  lemma TreasHidesPresident()
    ensures "President" in Roles && "President" !in FilteredRoles("treas")
  {
    var p := "President";
    assert Roles[2] == p;
    assert !MatchesQuery(p, "treas") by {
      MatchesQuerySpec(p, "treas");
      assert ToLower("treas") == "treas";
      assert ToLower(p) == "president";
      forall i ensures !OccursAt("president", "treas", i) {
        if 0 <= i <= 4 {
          assert "president"[i..i + 5][0] == "president"[i];
        }
      }
    }
  }

  /** The component's two state variables. */
  class RolesDropdownState {
    var selectedRole: string
    var searchQuery: string

    /** `useState<string>("")` and `useState("")`. */
    constructor ()
      ensures selectedRole == NoRole && searchQuery == ""
    {
      selectedRole := NoRole;
      searchQuery := "";
    }

    /** `onValueChange={setSelectedRole}`: the chosen value, as given. */
    method SelectRole(role: string)
      modifies this`selectedRole
      ensures selectedRole == role
    {
      selectedRole := role;
    }

    /** The search box's `onChange`: the selection is untouched, even when
        the chosen role is no longer listed. */
    method SetSearchQuery(query: string)
      modifies this`searchQuery
      ensures searchQuery == query
    {
      searchQuery := query;
    }

    /** The roles the popover lists. */
    function Visible(): (r: seq<string>)
      reads this
      ensures forall role :: role in r <==> role in Roles && MatchesQuery(role, searchQuery)
    {
      FilteredRoles(searchQuery)
    }
  }

  /** Choosing "President" and then searching for "treas" hides the chosen
      role from the list, and it stays chosen. */
  method HiddenSelectionStays() returns (s: RolesDropdownState)
    ensures s.selectedRole == "President" && s.searchQuery == "treas"
    ensures s.selectedRole in Roles && s.selectedRole !in s.Visible()
  {
    s := new RolesDropdownState();
    s.SelectRole("President");
    s.SetSearchQuery("treas");
    TreasHidesPresident();
  }
}
