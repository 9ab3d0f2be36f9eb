/** The member profile page: the values it derives from the member record
    it was navigated to with. */
module MemberProfile {
  import opened JsValues
  import opened JsText

  /** A member record as handed over in the navigation state. */
  type Record = map<string, string>

  const DefaultMembershipId := "BJ345635789"
  const DefaultCountry := "Nigeria"
  const DefaultState := "Lagos State"

  /** `location.state || {}` */
  function Data(state: Option<Record>): Record {
    state.GetOr(map[])
  }

  /** `data.k?.[0] || d`: the first character of a present, non-empty
      property, and `d` otherwise. */
  function FirstCharOr(data: Record, k: string, d: string): (r: string)
    ensures Truthy(Lookup(data, k)) ==> r == [data[k][0]]
    ensures !Truthy(Lookup(data, k)) ==> r == d
  {
    if k in data && data[k] != "" then [data[k][0]] else d
  }

  /** The avatar's letters: the first name's initial or "?", then the last
      name's initial if there is one. */
  function Initials(data: Record): (r: string)
    ensures 1 <= |r| <= 2
    ensures r[0] == (if Truthy(Lookup(data, "firstName")) then data["firstName"][0] else '?')
    ensures |r| == 2 <==> Truthy(Lookup(data, "lastName"))
    ensures |r| == 2 ==> r[1] == data["lastName"][0]
  {
    FirstCharOr(data, "firstName", "?") + FirstCharOr(data, "lastName", "")
  }

  /** The membership number shown, with its placeholder. */
  function MembershipId(data: Record): (r: string)
    ensures r != ""
    ensures Truthy(Lookup(data, "membershipId")) ==> r == data["membershipId"]
    ensures !Truthy(Lookup(data, "membershipId")) ==> r == DefaultMembershipId
  {
    OrElse(Lookup(data, "membershipId"), DefaultMembershipId)
  }

  /** The read-only country and state inputs, with their defaults. */
  function Country(data: Record): (r: string)
    ensures r != ""
    ensures Truthy(Lookup(data, "country")) ==> r == data["country"]
    ensures !Truthy(Lookup(data, "country")) ==> r == DefaultCountry
  {
    OrElse(Lookup(data, "country"), DefaultCountry)
  }

  function State(data: Record): (r: string)
    ensures r != ""
    ensures Truthy(Lookup(data, "state")) ==> r == data["state"]
    ensures !Truthy(Lookup(data, "state")) ==> r == DefaultState
  {
    OrElse(Lookup(data, "state"), DefaultState)
  }

  /** `` `${data.firstName || ""} ${data.lastName || ""}`.trim() `` */
  function FullName(data: Record): string {
    Trim(OrElse(Lookup(data, "firstName"), "") + " " + OrElse(Lookup(data, "lastName"), ""))
  }

  /** The full name never starts or ends with white space, and it is a
      piece of the joined text cut between spaces. */
  lemma FullNameSpec(data: Record)
    ensures var n := FullName(data);
      n == [] || (!IsSpace(n[0]) && !IsSpace(n[|n| - 1]))
    ensures exists i :: SliceBetweenSpaces(
      OrElse(Lookup(data, "firstName"), "") + " " + OrElse(Lookup(data, "lastName"), ""),
      FullName(data), i)
  {
    TrimSlice(OrElse(Lookup(data, "firstName"), "") + " " + OrElse(Lookup(data, "lastName"), ""));
  }

  /** With both names present and free of edge spaces, the full name is
      the two joined by one space. */
  lemma FullNameOfBothNames(data: Record)
    requires "firstName" in data && "lastName" in data
    requires var f := data["firstName"]; f != "" && !IsSpace(f[0]) && !IsSpace(f[|f| - 1])
    requires var l := data["lastName"]; l != "" && !IsSpace(l[0]) && !IsSpace(l[|l| - 1])
    ensures FullName(data) == data["firstName"] + " " + data["lastName"]
  {
    var s := data["firstName"] + " " + data["lastName"];
    assert s[0] == data["firstName"][0];
    assert s[|s| - 1] == data["lastName"][|data["lastName"]| - 1];
    TrimUnchanged(s);
  }

  /** Without a last name, the separating space is trimmed away. */
  lemma FullNameOfFirstNameOnly(data: Record)
    requires "firstName" in data && !Truthy(Lookup(data, "lastName"))
    requires var f := data["firstName"]; f != "" && !IsSpace(f[0]) && !IsSpace(f[|f| - 1])
    ensures FullName(data) == data["firstName"]
  {
    var f := data["firstName"];
    var s := f + " " + "";
    assert s == f + " ";
    assert TrimStart(s) == s by {
      assert s[0] == f[0];
    }
    assert IsSpace(s[|s| - 1]);
    assert s[|f| - 1] == f[|f| - 1];
    assert SpacesBefore(s, |s|) == |f|;
    assert TrimEnd(s) == f;
  }

  /** Without either name the full name is empty. */
  lemma FullNameOfNoNames(data: Record)
    requires !Truthy(Lookup(data, "firstName")) && !Truthy(Lookup(data, "lastName"))
    ensures FullName(data) == ""
  {
    var s := "" + " " + "";
    assert s == " ";
    assert IsSpace(s[0]);
    TrimEmpty(s);
  }

  /** Opened without a record, the page shows the placeholders. */
  lemma NoStateShowsDefaults()
    ensures Initials(Data(None)) == "?"
    ensures MembershipId(Data(None)) == DefaultMembershipId
    ensures Country(Data(None)) == DefaultCountry && State(Data(None)) == DefaultState
    ensures FullName(Data(None)) == ""
  {
    FullNameOfNoNames(Data(None));
  }
}
