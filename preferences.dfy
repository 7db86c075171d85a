/** `UserPreferences`: five typed preference keys. Each `save*` writes one key with
    the value's encoding; each `*Flow` reads its key back, decoding with a default for
    a missing or unreadable value. Enum values are stored by their names. */
module Preferences {
  import opened Wrappers
  import opened Tags

  /** The time-label formats the settings offer. */
  datatype TimeFormat = AbsoluteDate | SimpleRelative | DetailedRelative

  // ---- enum names, as `name` and `valueOf` see them ----

  function SortTypeName(t: SortType): string {
    match t
    case Name => "Name"
    case Time => "Time"
    case TimeReverse => "TimeReverse"
    case Starred => "Starred"
    case Updated => "Updated"
  }

  /** `SortType.valueOf`, with the exception as `None`. */
  function SortTypeOf(n: string): (r: Option<SortType>)
    ensures r.Some? ==> SortTypeName(r.value) == n
  {
    if n == "Name" then Some(Name)
    else if n == "Time" then Some(Time)
    else if n == "TimeReverse" then Some(TimeReverse)
    else if n == "Starred" then Some(Starred)
    else if n == "Updated" then Some(Updated)
    else None
  }

  /** Names identify values: reading a written name gives the value back. */
  lemma {:induction false} SortTypeNameRoundTrip(t: SortType)
    ensures SortTypeOf(SortTypeName(t)) == Some(t)
  {
  }

  function SearchSortTypeName(t: SearchSortType): string {
    match t
    case Popular => "Popular"
    case NewAPopular => "NewAPopular"
    case TopSellers => "TopSellers"
    case TopRated => "TopRated"
    case MostRecent => "MostRecent"
  }

  function SearchSortTypeOf(n: string): (r: Option<SearchSortType>)
    ensures r.Some? ==> SearchSortTypeName(r.value) == n
  {
    if n == "Popular" then Some(Popular)
    else if n == "NewAPopular" then Some(NewAPopular)
    else if n == "TopSellers" then Some(TopSellers)
    else if n == "TopRated" then Some(TopRated)
    else if n == "MostRecent" then Some(MostRecent)
    else None
  }

  lemma {:induction false} SearchSortTypeNameRoundTrip(t: SearchSortType)
    ensures SearchSortTypeOf(SearchSortTypeName(t)) == Some(t)
  {
  }

  function TimeFormatName(t: TimeFormat): string {
    match t
    case AbsoluteDate => "AbsoluteDate"
    case SimpleRelative => "SimpleRelative"
    case DetailedRelative => "DetailedRelative"
  }

  function TimeFormatOf(n: string): (r: Option<TimeFormat>)
    ensures r.Some? ==> TimeFormatName(r.value) == n
  {
    if n == "AbsoluteDate" then Some(AbsoluteDate)
    else if n == "SimpleRelative" then Some(SimpleRelative)
    else if n == "DetailedRelative" then Some(DetailedRelative)
    else None
  }

  lemma {:induction false} TimeFormatNameRoundTrip(t: TimeFormat)
    ensures TimeFormatOf(TimeFormatName(t)) == Some(t)
  {
  }

  // ---- encoders and decoders ----

  /** What `saveSortTypes` stores: the set of names. */
  function EncodeSortTypes(types: set<SortType>): set<string> {
    set t | t in types :: SortTypeName(t)
  }

  /** `sortTypesFlow`: the stored names that are SortType names, as values; a missing
      key reads as the empty set. */
  function DecodeSortTypes(stored: Option<set<string>>): (r: set<SortType>)
    ensures stored.None? ==> r == {}
    ensures stored.Some? ==> forall t :: t in r <==> SortTypeName(t) in stored.value
  {
    match stored
    case None => {}
    case Some(names) =>
      assert forall t :: SortTypeName(t) in names ==> t == SortTypeOf(SortTypeName(t)).value;
      set n | n in names && SortTypeOf(n).Some? :: SortTypeOf(n).value
  }

  /** A saved set of sort types reads back as the same set. */
  lemma {:induction false} SortTypesRoundTrip(types: set<SortType>)
    ensures DecodeSortTypes(Some(EncodeSortTypes(types))) == types
  {
    var r := DecodeSortTypes(Some(EncodeSortTypes(types)));
    forall t
      ensures t in r <==> t in types
    {
      if SortTypeName(t) in EncodeSortTypes(types) {
        var u :| u in types && SortTypeName(u) == SortTypeName(t);
        SortTypeNameRoundTrip(u);
        SortTypeNameRoundTrip(t);
      }
    }
  }

  /** Stored names that are not SortType names are dropped on read. */
  lemma {:induction false} UnknownSortNamesDropped(names: set<string>, junk: set<string>)
    requires forall n :: n in junk ==> SortTypeOf(n).None?
    ensures DecodeSortTypes(Some(names + junk)) == DecodeSortTypes(Some(names))
  {
    forall t
      ensures SortTypeName(t) in junk ==> false
    {
      SortTypeNameRoundTrip(t);
    }
  }

  /** `searchSortTypeFlow`: a missing or unknown name reads as Popular. */
  function DecodeSearchSortType(stored: Option<string>): SearchSortType {
    match stored
    case None => Popular
    case Some(n) => SearchSortTypeOf(n).GetOr(Popular)
  }

  lemma {:induction false} SearchSortTypeRoundTrip(t: SearchSortType, junk: string)
    requires SearchSortTypeOf(junk).None?
    ensures DecodeSearchSortType(Some(SearchSortTypeName(t))) == t
    ensures DecodeSearchSortType(None) == Popular && DecodeSearchSortType(Some(junk)) == Popular
  {
    SearchSortTypeNameRoundTrip(t);
  }

  /** `timeFormatFlow`: a missing or unknown name reads as DetailedRelative. */
  function DecodeTimeFormat(stored: Option<string>): TimeFormat {
    match stored
    case None => DetailedRelative
    case Some(n) => TimeFormatOf(n).GetOr(DetailedRelative)
  }

  lemma {:induction false} TimeFormatRoundTrip(t: TimeFormat, junk: string)
    requires TimeFormatOf(junk).None?
    ensures DecodeTimeFormat(Some(TimeFormatName(t))) == t
    ensures DecodeTimeFormat(None) == DetailedRelative && DecodeTimeFormat(Some(junk)) == DetailedRelative
  {
    TimeFormatNameRoundTrip(t);
  }

  const DefaultThreadCount: int := 5

  /** The preference store. */
  class UserPreferences {
    var sortTypes: Option<set<string>>
    var searchSortType: Option<string>
    var timeFormat: Option<string>
    var searchType: Option<bool>
    var threadCount: Option<int>

    /** A store with no key written; every flow reads its default. */
    constructor ()
      ensures sortTypes.None? && searchSortType.None? && timeFormat.None?
      ensures searchType.None? && threadCount.None?
      ensures SortTypesFlow() == {} && SearchSortTypeFlow() == Popular && TimeFormatFlow() == DetailedRelative
      ensures !SearchTypeFlow() && ThreadCountFlow() == 5
    {
      sortTypes, searchSortType, timeFormat := None, None, None;
      searchType, threadCount := None, None;
    }

    function SortTypesFlow(): set<SortType>
      reads this
    {
      DecodeSortTypes(sortTypes)
    }

    function SearchSortTypeFlow(): SearchSortType
      reads this
    {
      DecodeSearchSortType(searchSortType)
    }

    function TimeFormatFlow(): TimeFormat
      reads this
    {
      DecodeTimeFormat(timeFormat)
    }

    /** `searchTypeFlow`: false when never saved. */
    function SearchTypeFlow(): (r: bool)
      reads this
      ensures searchType.None? ==> !r
      ensures searchType.Some? ==> r == searchType.value
    {
      searchType.GetOr(false)
    }

    /** `threadCountFlow`: 5 when never saved. */
    function ThreadCountFlow(): (r: int)
      reads this
      ensures threadCount.None? ==> r == DefaultThreadCount
      ensures threadCount.Some? ==> r == threadCount.value
    {
      threadCount.GetOr(DefaultThreadCount)
    }

    method SaveSortTypes(types: set<SortType>)
      modifies this
      ensures sortTypes == Some(EncodeSortTypes(types))
      ensures searchSortType == old(searchSortType) && timeFormat == old(timeFormat)
      ensures searchType == old(searchType) && threadCount == old(threadCount)
      ensures SortTypesFlow() == types
    {
      sortTypes := Some(EncodeSortTypes(types));
      SortTypesRoundTrip(types);
    }

    method SaveSearchSortType(t: SearchSortType)
      modifies this
      ensures searchSortType == Some(SearchSortTypeName(t))
      ensures sortTypes == old(sortTypes) && timeFormat == old(timeFormat)
      ensures searchType == old(searchType) && threadCount == old(threadCount)
      ensures SearchSortTypeFlow() == t
    {
      searchSortType := Some(SearchSortTypeName(t));
      SearchSortTypeNameRoundTrip(t);
    }

    method SaveTimeFormat(t: TimeFormat)
      modifies this
      ensures timeFormat == Some(TimeFormatName(t))
      ensures sortTypes == old(sortTypes) && searchSortType == old(searchSortType)
      ensures searchType == old(searchType) && threadCount == old(threadCount)
      ensures TimeFormatFlow() == t
    {
      timeFormat := Some(TimeFormatName(t));
      TimeFormatNameRoundTrip(t);
    }

    method SaveSearchType(value: bool)
      modifies this
      ensures searchType == Some(value)
      ensures sortTypes == old(sortTypes) && searchSortType == old(searchSortType)
      ensures timeFormat == old(timeFormat) && threadCount == old(threadCount)
      ensures SearchTypeFlow() == value
    {
      searchType := Some(value);
    }

    method SaveThreadCount(value: int)
      modifies this
      ensures threadCount == Some(value)
      ensures sortTypes == old(sortTypes) && searchSortType == old(searchSortType)
      ensures timeFormat == old(timeFormat) && searchType == old(searchType)
      ensures ThreadCountFlow() == value
    {
      threadCount := Some(value);
    }
  }
}
