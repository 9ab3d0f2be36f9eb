/** The sort popover: a radio list of sort keys, a date-range submenu under
    "Date", and a calendar panel for a custom range. */
module SortByDropdown {
  import opened JsValues

  /** A sort key, its label, and whether a submenu chevron is shown. */
  datatype SortOption = SortOption(id: string, caption: string, hasSubmenu: bool)

  const SortOptions: seq<SortOption> := [
    SortOption("name", "Name A → Z", false),
    SortOption("date", "Date", true),
    SortOption("id", "ID", false),
    SortOption("status", "Status", false),
    SortOption("role", "Role", false)
  ]

  /** A preset date range, its label, and the date text under the label. */
  datatype RangeOption = RangeOption(id: string, caption: string, date: string)

  const DateRanges: seq<RangeOption> := [
    RangeOption("today", "Today", "12 Jan"),
    RangeOption("yesterday", "Yesterday", "10 Jan"),
    RangeOption("this-week", "This Week", "Jan 10-16"),
    RangeOption("last-week", "Last Week", "Jan 16-24"),
    RangeOption("last-month", "Last Month", "Jan 1-31"),
    RangeOption("custom", "Custom Range", "")
  ]

  const DefaultSort := "date"
  const DefaultRange := "today"
  const CustomRange := "custom"

  /** The two values the handlers test for are the special entries of the
      rendered lists: "date" is the one sort option drawn with a submenu
      chevron, and "custom" the one range preset with no date text. */
  lemma SpecialEntriesMatchHandlers()
    ensures forall o :: o in SortOptions ==> (o.hasSubmenu <==> o.id == DefaultSort)
    ensures exists o :: o in SortOptions && o.id == DefaultSort
    ensures forall o :: o in DateRanges ==> (o.date == "" <==> o.id == CustomRange)
    ensures exists o :: o in DateRanges && o.id == CustomRange
  {
    assert SortOptions[1].id == DefaultSort;
    assert DateRanges[5].id == CustomRange;
  }

  /** A calendar selection; a `Date` is modelled by an integer instant and
      an undefined end by `None`. */
  datatype DateRange = DateRange(from: Option<int>, to: Option<int>)

  const NoDates := DateRange(None, None)

  /** What `onDateRangeChange` receives, if it is called at all. */
  datatype RangeNotice = Silent | Cleared | Selected(range: Option<DateRange>)

  class SortByState {
    var sortBy: string
    var showDateSubmenu: bool
    var selectedDateRange: string
    var showCalendar: bool
    /** `None` is the `undefined` the calendar passes when a range is
        deselected. */
    var dateRange: Option<DateRange>

    /** The calendar panel is only ever opened by choosing the custom range. */
    predicate Valid()
      reads this
    {
      showCalendar ==> selectedDateRange == CustomRange
    }

    /** `useState(value ?? "date")` and the other initial values. */
    constructor (value: Option<string>)
      ensures Valid()
      ensures value.Some? ==> sortBy == value.value
      ensures value.None? ==> sortBy == DefaultSort
      ensures !showDateSubmenu && !showCalendar
      ensures selectedDateRange == DefaultRange && dateRange == Some(NoDates)
    {
      sortBy := value.GetOr(DefaultSort);
      showDateSubmenu := false;
      selectedDateRange := DefaultRange;
      showCalendar := false;
      dateRange := Some(NoDates);
    }

    /** The effect on `value`: a truthy value that differs replaces the
        sort key; anything else leaves it. */
    method SyncValue(value: Option<string>)
      requires Valid()
      modifies this`sortBy
      ensures Valid()
      ensures Truthy(value) ==> sortBy == value.value
      ensures !Truthy(value) ==> sortBy == old(sortBy)
    {
      if Truthy(value) && value.value != sortBy {
        sortBy := value.value;
      }
    }

    /** `handleSortChange`: the key is stored and passed to `onChange`, and
        the date submenu is shown exactly for "date". */
    method HandleSortChange(value: string) returns (notified: string)
      requires Valid()
      modifies this`sortBy, this`showDateSubmenu
      ensures Valid()
      ensures sortBy == value && notified == value
      ensures showDateSubmenu <==> value == DefaultSort
    {
      sortBy := value;
      notified := value;
      if value == DefaultSort {
        showDateSubmenu := true;
      } else {
        showDateSubmenu := false;
      }
    }

    /** `handleDateRangeSelect`: the range id is stored; "custom" opens the
        calendar without a notice, any other id closes it and reports no
        range. The calendar's own selection is kept either way. */
    method HandleDateRangeSelect(rangeId: string) returns (notice: RangeNotice)
      requires Valid()
      modifies this`selectedDateRange, this`showCalendar
      ensures Valid()
      ensures selectedDateRange == rangeId
      ensures showCalendar <==> rangeId == CustomRange
      ensures notice == (if rangeId == CustomRange then Silent else Cleared)
    {
      selectedDateRange := rangeId;
      if rangeId == CustomRange {
        showCalendar := true;
        notice := Silent;
      } else {
        showCalendar := false;
        notice := Cleared;
      }
    }

    /** The calendar's `onSelect`: the range is stored as given and passed
        on. */
    method CalendarSelect(range: Option<DateRange>) returns (notice: RangeNotice)
      requires Valid()
      modifies this`dateRange
      ensures Valid()
      ensures dateRange == range && notice == Selected(range)
    {
      dateRange := range;
      notice := Selected(range);
    }

    /** REMOVE: the calendar closes, both ends are cleared and no range is
        reported. */
    method Remove() returns (notice: RangeNotice)
      requires Valid()
      modifies this`showCalendar, this`dateRange
      ensures Valid()
      ensures !showCalendar && dateRange == Some(NoDates) && notice == Cleared
    {
      showCalendar := false;
      dateRange := Some(NoDates);
      notice := Cleared;
    }

    /** DONE: the calendar closes; the selection stays. */
    method Done()
      requires Valid()
      modifies this`showCalendar
      ensures Valid()
      ensures !showCalendar
    {
      showCalendar := false;
    }

    /** Whether the popover shows the radio list (rather than the calendar)
        with the date submenu open: with a preset range chosen, only the
        submenu flag decides. */
    function ShowsSubmenu(): (r: bool)
      reads this
      requires Valid()
      ensures selectedDateRange != CustomRange ==> (r <==> showDateSubmenu)
    {
      !showCalendar && showDateSubmenu
    }
  }
}
