/** The status filter popover: four checkbox options with a search box,
    and the map of which options are checked. */
module FilterDropdown {
  import opened JsValues
  import opened JsText
  import opened JsArray

  /** An option: its key, the label shown (`label`), and its initial state. */
  datatype FilterOption = FilterOption(id: string, caption: string, defaultChecked: bool)

  const FilterOptions: seq<FilterOption> := [
    FilterOption("active", "Active", true),
    FilterOption("suspended", "Suspended", false),
    FilterOption("inactive", "Inactive", false),
    FilterOption("new-added", "New Added", false)
  ]

  /** The accumulator of the `reduce` after it has visited `opts`. */
  function Defaults(opts: seq<FilterOption>): map<string, bool>
    decreases |opts|
  {
    if opts == [] then map[]
    else Defaults(opts[..|opts| - 1])[opts[|opts| - 1].id := opts[|opts| - 1].defaultChecked]
  }

  /** Each visited option has its id as a key, and with distinct ids the
      value is that option's default; no other key appears. */
  lemma {:induction false} DefaultsSpec(opts: seq<FilterOption>, k: string)
    requires forall i, j :: 0 <= i < j < |opts| ==> opts[i].id != opts[j].id
    ensures k in Defaults(opts) <==> exists i :: 0 <= i < |opts| && opts[i].id == k
    ensures forall i :: 0 <= i < |opts| && opts[i].id == k ==> Defaults(opts)[k] == opts[i].defaultChecked
    decreases |opts|
  {
    if opts != [] {
      var init := opts[..|opts| - 1];
      DefaultsSpec(init, k);
      if k in Defaults(opts) && k != opts[|opts| - 1].id {
        var i :| 0 <= i < |init| && init[i].id == k;
        assert opts[i].id == k;
      }
      forall i | 0 <= i < |init| && init[i].id == k
        ensures exists j :: 0 <= j < |opts| && opts[j].id == k
      {
        assert opts[i].id == k;
      }
    }
  }

  /** The initial map: `active` checked, the other three not. */
  lemma InitialFilters()
    ensures Defaults(FilterOptions) ==
      map["active" := true, "suspended" := false, "inactive" := false, "new-added" := false]
  {
    var o := FilterOptions;
    assert o[..1][..0] == [];
    assert Defaults(o[..1]) == map["active" := true];
    assert o[..2][..1] == o[..1];
    assert Defaults(o[..2]) == map["active" := true, "suspended" := false];
    assert o[..3][..2] == o[..2];
    assert Defaults(o[..3]) == map["active" := true, "suspended" := false, "inactive" := false];
    assert o[..4][..3] == o[..3];
    assert o[..4] == o;
  }

  /** The options whose label matches the query, in their list order. */
  function FilteredOptions(query: string): (r: seq<FilterOption>)
    ensures forall o :: o in r <==> o in FilterOptions && MatchesQuery(o.caption, query)
    ensures IsSubsequence(r, FilterOptions)
  {
    Filter(FilterOptions, (o: FilterOption) => MatchesQuery(o.caption, query))
  }

  /** The empty query lists every option. */
  lemma EmptyQueryListsAll()
    ensures FilteredOptions("") == FilterOptions
  {
    forall o | o in FilterOptions ensures MatchesQuery(o.caption, "") {
      MatchesQuerySpec(o.caption, "");
    }
    FilterAll(FilterOptions, (o: FilterOption) => MatchesQuery(o.caption, ""));
  }

  class FilterDropdownState {
    var filters: map<string, bool>
    var searchQuery: string

    /** The state's initial values: the reduced default map and an empty
        search. */
    constructor ()
      ensures filters == Defaults(FilterOptions) && searchQuery == ""
    {
      var acc := BuildDefaults();
      filters := acc;
      searchQuery := "";
    }

    /** `filterOptions.reduce((acc, option) => { acc[option.id] =
        option.defaultChecked; return acc; }, {})` */
    static method BuildDefaults() returns (acc: map<string, bool>)
      ensures acc == Defaults(FilterOptions)
      ensures acc == map["active" := true, "suspended" := false, "inactive" := false, "new-added" := false]
    {
      acc := map[];
      var i := 0;
      while i < |FilterOptions|
        invariant 0 <= i <= |FilterOptions|
        invariant acc == Defaults(FilterOptions[..i])
      {
        var option := FilterOptions[i];
        acc := acc[option.id := option.defaultChecked];
        assert FilterOptions[..i + 1][..i] == FilterOptions[..i];
        i := i + 1;
      }
      assert FilterOptions[..i] == FilterOptions;
      InitialFilters();
    }

    /** `checked={filters[option.id]}`: a key the map lacks reads as
        unchecked. */
    predicate IsChecked(id: string): (r: bool)
      reads this
      ensures r <==> id in filters && filters[id]
      ensures id !in filters ==> !r
    {
      Lookup(filters, id) == Some(true)
    }

    /** A checkbox's `onCheckedChange`: that option's key is set; the new
        map is stored and passed to `onChange`. */
    method Toggle(id: string, checked: bool) returns (notified: map<string, bool>)
      modifies this`filters
      ensures filters == old(filters)[id := checked]
      ensures notified == filters
      ensures IsChecked(id) == checked
      ensures forall k :: k != id ==> Lookup(filters, k) == Lookup(old(filters), k)
    {
      var updated := filters[id := checked];
      filters := updated;
      notified := updated;
    }

    /** The effect on `value`: a given value replaces the whole map. */
    method SyncValue(value: Option<map<string, bool>>)
      modifies this`filters
      ensures value.Some? ==> filters == value.value
      ensures value.None? ==> filters == old(filters)
    {
      if value.Some? {
        filters := value.value;
      }
    }

    /** The search box's `onChange`. */
    method SetSearchQuery(query: string)
      modifies this`searchQuery
      ensures searchQuery == query
    {
      searchQuery := query;
    }

    /** The options the popover lists. */
    function Visible(): (r: seq<FilterOption>)
      reads this
      ensures forall o :: o in r <==> o in FilterOptions && MatchesQuery(o.caption, searchQuery)
    {
      FilteredOptions(searchQuery)
    }
  }
}
