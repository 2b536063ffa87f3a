/**
 The table view's query layer: its column configuration, the year filter and the
 risk-factor tag filter applied to the year filter's result.
 */
module DataTable {
  import opened Maybe
  import opened Seqs
  import opened DataItems

  // ---------------------------------------------------------------------------
  // Columns
  // ---------------------------------------------------------------------------

  /**
   The item fields a column accessor can name; the accessor strings of the source are
   'Asset Name', 'Business Category', 'Risk Rating', 'Risk Factors', 'Year', 'Lat' and 'Long'.
   */
  datatype Field = AssetName | BusinessCategory | RiskRating | RiskFactors | Year | Lat | Long

  /** A table column: its header text, the item field it shows, and its sort flag. */
  datatype Column = Column(header: string, accessor: Field, disableSortBy: bool)

  /** The seven columns, in display order. */
  const Columns: seq<Column> := [
    Column("Asset Name", AssetName, false),
    Column("Business Category", BusinessCategory, false),
    Column("Risk Rating", RiskRating, false),
    Column("Risk Factors", RiskFactors, false),
    Column("Year", Year, false),
    Column("Latitude", Lat, true),
    Column("Longitude", Long, true)
  ]

  /** A column with an accessor can be sorted unless it disables sorting. */
  predicate CanSort(c: Column)
  {
    !c.disableSortBy
  }

  /** The text a column shows for an item: the field its accessor names, undecoded. */
  function Cell(item: DataItem, accessor: Field): string
  {
    match accessor
    case AssetName => item.assetName
    case BusinessCategory => item.businessCategory
    case RiskRating => item.riskRating
    case RiskFactors => item.riskFactors
    case Year => item.year
    case Lat => item.lat
    case Long => item.long
  }

  /** The headers of the columns whose sort toggle is enabled. */
  function SortableHeaders(cols: seq<Column>): (r: set<string>)
    ensures forall i :: 0 <= i < |cols| && CanSort(cols[i]) ==> cols[i].header in r
    ensures forall h :: h in r ==> exists i :: 0 <= i < |cols| && CanSort(cols[i]) && cols[i].header == h
  {
    set i | 0 <= i < |cols| && CanSort(cols[i]) :: cols[i].header
  }

  /** Exactly the columns showing Lat and Long have sorting disabled. */
  lemma OnlyCoordinatesUnsortable()
    ensures forall i :: 0 <= i < |Columns| ==>
              (CanSort(Columns[i]) <==> Columns[i].accessor != Lat && Columns[i].accessor != Long)
  {
  }

  /** The sortable headers are those of every column but Latitude and Longitude. */
  lemma SortableColumns()
    ensures SortableHeaders(Columns)
         == {"Asset Name", "Business Category", "Risk Rating", "Risk Factors", "Year"}
  {
    var r := SortableHeaders(Columns);
    var five := {"Asset Name", "Business Category", "Risk Rating", "Risk Factors", "Year"};
    forall h | h in r
      ensures h in five
    {
      var i :| 0 <= i < |Columns| && CanSort(Columns[i]) && Columns[i].header == h;
      assert i < 5;
    }
    assert Columns[0].header in r && Columns[1].header in r && Columns[2].header in r;
    assert Columns[3].header in r && Columns[4].header in r;
    assert r == five;
  }

  /**
   A table row shows all seven fields of its item, in column order; Risk Factors is
   shown as its raw JSON text.
   */
  lemma ColumnsShowItemFields(item: DataItem)
    ensures seq(|Columns|, i requires 0 <= i < |Columns| => Cell(item, Columns[i].accessor))
         == [item.assetName, item.businessCategory, item.riskRating, item.riskFactors,
             item.year, item.lat, item.long]
  {
  }

  // ---------------------------------------------------------------------------
  // Year filter
  // ---------------------------------------------------------------------------

  /** A year is selected when the prop is a non-empty string other than the sentinel "All". */
  predicate YearSelected(selectedYear: Option<string>)
  {
    selectedYear.Some? && selectedYear.value != "" && selectedYear.value != "All"
  }

  /** The items the year selection admits: all of them, or those of the selected year. */
  function InSelectedYear(selectedYear: Option<string>): DataItem -> bool
  {
    (item: DataItem) => !YearSelected(selectedYear) || item.year == selectedYear.value
  }

  /** Copies the data, then keeps the items whose Year text equals the selected year. */
  function FilterByYear(data: seq<DataItem>, selectedYear: Option<string>): (r: seq<DataItem>)
    ensures !YearSelected(selectedYear) ==> r == data
    ensures YearSelected(selectedYear) ==>
              forall i :: 0 <= i < |r| ==> r[i] in data && r[i].year == selectedYear.value
    ensures YearSelected(selectedYear) ==>
              forall i :: 0 <= i < |data| && data[i].year == selectedYear.value ==> data[i] in r
    ensures |r| <= |data|
  {
    var result := data;
    if YearSelected(selectedYear) then
      Filter((item: DataItem) => item.year == selectedYear.value, result)
    else
      result
  }

  /** The year filter is exactly the order-preserving filter by the year selection. */
  lemma FilterByYearIsFilter(data: seq<DataItem>, selectedYear: Option<string>)
    ensures FilterByYear(data, selectedYear) == Filter(InSelectedYear(selectedYear), data)
  {
    if YearSelected(selectedYear) {
      FilterSameOn((item: DataItem) => item.year == selectedYear.value, InSelectedYear(selectedYear), data);
    } else {
      FilterKeepsAll(InSelectedYear(selectedYear), data);
    }
  }

  /** The year filter keeps a subsequence of its input, with every occurrence of each admitted item. */
  lemma FilterByYearSubsequence(data: seq<DataItem>, selectedYear: Option<string>, item: DataItem)
    ensures IsSubsequence(FilterByYear(data, selectedYear), data)
    ensures multiset(FilterByYear(data, selectedYear))[item]
         == if InSelectedYear(selectedYear)(item) then multiset(data)[item] else 0
  {
    FilterByYearIsFilter(data, selectedYear);
    FilterIsSubsequence(InSelectedYear(selectedYear), data);
    FilterCount(InSelectedYear(selectedYear), data, item);
  }

  /** Filtering by the same year twice is filtering once. */
  lemma FilterByYearIdempotent(data: seq<DataItem>, selectedYear: Option<string>)
    ensures FilterByYear(FilterByYear(data, selectedYear), selectedYear) == FilterByYear(data, selectedYear)
  {
    FilterByYearIsFilter(data, selectedYear);
    FilterByYearIsFilter(FilterByYear(data, selectedYear), selectedYear);
    FilterIdempotent(InSelectedYear(selectedYear), data);
  }

  // ---------------------------------------------------------------------------
  // Tag filter
  // ---------------------------------------------------------------------------

  /**
   The decoder of a Risk Factors text: the keys of the object JSON parsing yields, or
   None when parsing throws. It stands for `Object.keys(JSON.parse(text))`.
   */
  type KeyDecoder = string -> Option<set<string>>

  /** The JSON parse error raised at position `index` of the filtered sequence. */
  datatype DecodeError = DecodeError(index: nat, text: string)

  /** The item's Risk Factors text decodes. */
  predicate Decodes(keysOf: KeyDecoder, item: DataItem)
  {
    keysOf(item.riskFactors).Some?
  }

  /** The item's Risk Factors decode to an object with `search` as one of its keys. */
  predicate Tagged(keysOf: KeyDecoder, search: string, item: DataItem)
  {
    keysOf(item.riskFactors).Some? && search in keysOf(item.riskFactors).value
  }

  /** `Tagged` as a filter callback. */
  function HasTag(keysOf: KeyDecoder, search: string): DataItem -> bool
  {
    (item: DataItem) => Tagged(keysOf, search, item)
  }

  /**
   Keeps the items having `search` as a key, decoding each in turn; the first text
   that fails to decode aborts the whole filter.
   */
  function KeepTagged(data: seq<DataItem>, search: string, keysOf: KeyDecoder): (r: Result<seq<DataItem>, DecodeError>)
    ensures r.Ok? <==> forall i :: 0 <= i < |data| ==> Decodes(keysOf, data[i])
    ensures r.Err? ==> && r.error.index < |data|
                       && !Decodes(keysOf, data[r.error.index])
                       && r.error.text == data[r.error.index].riskFactors
                       && forall i :: 0 <= i < r.error.index ==> Decodes(keysOf, data[i])
    ensures r.Ok? ==> forall i :: 0 <= i < |r.value| ==> r.value[i] in data && Tagged(keysOf, search, r.value[i])
    ensures r.Ok? ==> forall i :: 0 <= i < |data| && Tagged(keysOf, search, data[i]) ==> data[i] in r.value
  {
    if data == [] then Ok([])
    else
      assert data == [data[0]] + data[1..];
      match keysOf(data[0].riskFactors)
      case None => Err(DecodeError(0, data[0].riskFactors))
      case Some(keys) =>
        match KeepTagged(data[1..], search, keysOf)
        case Err(e) => Err(DecodeError(e.index + 1, e.text))
        case Ok(rest) => Ok(if search in keys then [data[0]] + rest else rest)
  }

  /** The tag filter: the identity for an empty search, the key filter otherwise. */
  function FilterByTag(data: seq<DataItem>, searchInput: string, keysOf: KeyDecoder): (r: Result<seq<DataItem>, DecodeError>)
    ensures searchInput == "" ==> r == Ok(data)
    ensures searchInput != "" ==> (r.Ok? <==> forall i :: 0 <= i < |data| ==> Decodes(keysOf, data[i]))
    ensures r.Err? ==> && r.error.index < |data|
                       && !Decodes(keysOf, data[r.error.index])
                       && r.error.text == data[r.error.index].riskFactors
                       && forall i :: 0 <= i < r.error.index ==> Decodes(keysOf, data[i])
    ensures r.Ok? && searchInput != "" ==>
              forall i :: 0 <= i < |r.value| ==> r.value[i] in data && Tagged(keysOf, searchInput, r.value[i])
    ensures r.Ok? && searchInput != "" ==>
              forall i :: 0 <= i < |data| && Tagged(keysOf, searchInput, data[i]) ==> data[i] in r.value
  {
    if searchInput != "" then KeepTagged(data, searchInput, keysOf) else Ok(data)
  }

  /** When every text decodes, the key filter is the order-preserving filter by `Tagged`. */
  lemma {:induction false} KeepTaggedIsFilter(data: seq<DataItem>, search: string, keysOf: KeyDecoder)
    requires forall i :: 0 <= i < |data| ==> Decodes(keysOf, data[i])
    ensures KeepTagged(data, search, keysOf) == Ok(Filter(HasTag(keysOf, search), data))
  {
    if data != [] {
      KeepTaggedIsFilter(data[1..], search, keysOf);
    }
  }

  /** A successful tag filter with a search keeps a subsequence: exactly the tagged items, in order. */
  lemma {:induction false} FilterByTagIsFilter(data: seq<DataItem>, searchInput: string, keysOf: KeyDecoder)
    requires searchInput != ""
    requires FilterByTag(data, searchInput, keysOf).Ok?
    ensures FilterByTag(data, searchInput, keysOf).value == Filter(HasTag(keysOf, searchInput), data)
    ensures IsSubsequence(FilterByTag(data, searchInput, keysOf).value, data)
  {
    KeepTaggedIsFilter(data, searchInput, keysOf);
    FilterIsSubsequence(HasTag(keysOf, searchInput), data);
  }

  // ---------------------------------------------------------------------------
  // The composed table pipeline
  // ---------------------------------------------------------------------------

  /**
   The rows handed to the table: the year filter, then the tag filter. The pipeline fails
   exactly when there is a search and some item of the selected year does not decode;
   otherwise it returns the items passing both filters, in order.
   */
  function TableData(data: seq<DataItem>, selectedYear: Option<string>, searchInput: string, keysOf: KeyDecoder)
    : (r: Result<seq<DataItem>, DecodeError>)
    ensures r.Ok? <==> (searchInput == "" ||
              forall i :: 0 <= i < |data| && InSelectedYear(selectedYear)(data[i]) ==> Decodes(keysOf, data[i]))
    ensures r.Ok? ==> r.value == Filter(PassesBoth(selectedYear, searchInput, keysOf), data)
  {
    FilterByYearIsFilter(data, selectedYear);
    if searchInput == "" then
      FilterSameOn(InSelectedYear(selectedYear), PassesBoth(selectedYear, searchInput, keysOf), data);
      FilterByTag(FilterByYear(data, selectedYear), searchInput, keysOf)
    else
      SearchAfterYear(data, selectedYear, searchInput, keysOf);
      FilterByTag(FilterByYear(data, selectedYear), searchInput, keysOf)
  }

  /** The items that pass both filters. */
  function PassesBoth(selectedYear: Option<string>, searchInput: string, keysOf: KeyDecoder): DataItem -> bool
  {
    (item: DataItem) => InSelectedYear(selectedYear)(item) && (searchInput == "" || Tagged(keysOf, searchInput, item))
  }

  /** With a search, the tag filter after the year filter fails iff a selected-year text does not decode. */
  lemma SearchAfterYear(data: seq<DataItem>, selectedYear: Option<string>, searchInput: string, keysOf: KeyDecoder)
    requires searchInput != ""
    ensures FilterByTag(FilterByYear(data, selectedYear), searchInput, keysOf).Ok?
        <==> forall i :: 0 <= i < |data| && InSelectedYear(selectedYear)(data[i]) ==> Decodes(keysOf, data[i])
    ensures FilterByTag(FilterByYear(data, selectedYear), searchInput, keysOf).Ok? ==>
              FilterByTag(FilterByYear(data, selectedYear), searchInput, keysOf).value
              == Filter(PassesBoth(selectedYear, searchInput, keysOf), data)
  {
    var p := InSelectedYear(selectedYear);
    FilterByYearIsFilter(data, selectedYear);
    if forall i :: 0 <= i < |data| && p(data[i]) ==> Decodes(keysOf, data[i]) {
      SelectedYearDecodes(data, selectedYear, keysOf);
      TableDataKeepsBoth(data, selectedYear, searchInput, keysOf);
    } else {
      var j :| 0 <= j < |data| && p(data[j]) && !Decodes(keysOf, data[j]);
      assert data[j] in FilterByYear(data, selectedYear);
    }
  }

  /** If every item of the selected year decodes, every item the year filter keeps decodes. */
  lemma SelectedYearDecodes(data: seq<DataItem>, selectedYear: Option<string>, keysOf: KeyDecoder)
    requires forall i :: 0 <= i < |data| && InSelectedYear(selectedYear)(data[i]) ==> Decodes(keysOf, data[i])
    ensures forall i :: 0 <= i < |FilterByYear(data, selectedYear)| ==>
              Decodes(keysOf, FilterByYear(data, selectedYear)[i])
  {
    var y := FilterByYear(data, selectedYear);
    forall i | 0 <= i < |y|
      ensures Decodes(keysOf, y[i])
    {
      var j :| 0 <= j < |data| && data[j] == y[i];
    }
  }

  /** With a search and every kept text decoding, the pipeline is the filter by both predicates. */
  lemma TableDataKeepsBoth(data: seq<DataItem>, selectedYear: Option<string>, searchInput: string, keysOf: KeyDecoder)
    requires searchInput != ""
    requires forall i :: 0 <= i < |FilterByYear(data, selectedYear)| ==>
               Decodes(keysOf, FilterByYear(data, selectedYear)[i])
    ensures FilterByTag(FilterByYear(data, selectedYear), searchInput, keysOf)
         == Ok(Filter(PassesBoth(selectedYear, searchInput, keysOf), data))
  {
    var p := InSelectedYear(selectedYear);
    var q := HasTag(keysOf, searchInput);
    FilterByYearIsFilter(data, selectedYear);
    KeepTaggedIsFilter(FilterByYear(data, selectedYear), searchInput, keysOf);
    FilterFuse(p, q, data);
    FilterSameOn(Both(p, q), PassesBoth(selectedYear, searchInput, keysOf), data);
  }

  /**
   Whenever the tag filter succeeds on the whole data, applying the year filter after it
   gives the pipeline's result: the two filters commute.
   */
  lemma FiltersCommute(data: seq<DataItem>, selectedYear: Option<string>, searchInput: string, keysOf: KeyDecoder)
    requires FilterByTag(data, searchInput, keysOf).Ok?
    ensures TableData(data, selectedYear, searchInput, keysOf)
         == Ok(FilterByYear(FilterByTag(data, searchInput, keysOf).value, selectedYear))
  {
    var t := FilterByTag(data, searchInput, keysOf).value;
    var p := InSelectedYear(selectedYear);
    FilterByYearIsFilter(t, selectedYear);
    if searchInput == "" {
      FilterByYearIsFilter(data, selectedYear);
    } else {
      var q := HasTag(keysOf, searchInput);
      FilterByTagIsFilter(data, searchInput, keysOf);
      FilterFuse(q, p, data);
      FilterSameOn(Both(q, p), PassesBoth(selectedYear, searchInput, keysOf), data);
    }
  }

  /**
   The converse fails: with the year filter first, an item outside the selected year whose
   text does not decode is never parsed, so the pipeline succeeds where the tag filter alone fails.
   */
  lemma YearFilterHidesDecodeErrors()
    ensures var bad := DataItem("Asset A", "Cat1", "3.5", "not json", "2020", "10.0", "20.0");
            var good := DataItem("Asset A", "Cat1", "4.0", "{\"fire\":1}", "2021", "10.0", "20.0");
            var keysOf: KeyDecoder := text => if text == "not json" then None else Some({"fire"});
            && TableData([bad, good], Some("2021"), "fire", keysOf) == Ok([good])
            && FilterByTag([bad, good], "fire", keysOf) == Err(DecodeError(0, "not json"))
  {
    var bad := DataItem("Asset A", "Cat1", "3.5", "not json", "2020", "10.0", "20.0");
    var good := DataItem("Asset A", "Cat1", "4.0", "{\"fire\":1}", "2021", "10.0", "20.0");
    var keysOf: KeyDecoder := text => if text == "not json" then None else Some({"fire"});
    assert |good.riskFactors| != |bad.riskFactors|;
    assert keysOf(bad.riskFactors) == None;
    assert keysOf(good.riskFactors) == Some({"fire"});
    assert "2020"[3] != "2021"[3];
    assert YearSelected(Some("2021"));
    YearFirstSkipsOtherYears(bad, good, "2021", "fire", keysOf);
  }

  /** The general case: an undecodable item of another year ahead of a tagged one. */
  lemma YearFirstSkipsOtherYears(bad: DataItem, good: DataItem, year: string, search: string, keysOf: KeyDecoder)
    requires YearSelected(Some(year)) && bad.year != year && good.year == year
    requires search != "" && !Decodes(keysOf, bad) && Tagged(keysOf, search, good)
    ensures TableData([bad, good], Some(year), search, keysOf) == Ok([good])
    ensures FilterByTag([bad, good], search, keysOf) == Err(DecodeError(0, bad.riskFactors))
  {
    assert FilterByYear([bad, good], Some(year)) == [good];
    assert [good][1..] == [];
    assert KeepTagged([], search, keysOf) == Ok([]);
    assert [good] + [] == [good];
    assert KeepTagged([good], search, keysOf) == Ok([good]);
  }

  /**
   Two records of Asset A, for 2020 (key "flood") and 2021 (keys "flood" and "fire"):
   "fire" keeps only the 2021 record, a year no record has selects nothing (an empty
   result, not an error), and a text that is not JSON is an error, not a non-match.
   */
  lemma TableExamples()
    ensures var a2020 := DataItem("Asset A", "Cat1", "3.5", "{\"flood\":1}", "2020", "10.0", "20.0");
            var a2021 := DataItem("Asset A", "Cat1", "4.0", "{\"flood\":1,\"fire\":1}", "2021", "10.0", "20.0");
            var broken := a2021.(riskFactors := "not json");
            var keysOf: KeyDecoder := text =>
              if text == "{\"flood\":1}" then Some({"flood"})
              else if text == "{\"flood\":1,\"fire\":1}" then Some({"flood", "fire"})
              else None;
            && FilterByTag([a2020, a2021], "fire", keysOf) == Ok([a2021])
            && FilterByYear([a2020, a2021], Some("2099")) == []
            && FilterByTag([a2020, broken], "fire", keysOf) == Err(DecodeError(1, "not json"))
  {
    var a2020 := DataItem("Asset A", "Cat1", "3.5", "{\"flood\":1}", "2020", "10.0", "20.0");
    var a2021 := DataItem("Asset A", "Cat1", "4.0", "{\"flood\":1,\"fire\":1}", "2021", "10.0", "20.0");
    var broken := a2021.(riskFactors := "not json");
    var keysOf: KeyDecoder := text =>
      if text == "{\"flood\":1}" then Some({"flood"})
      else if text == "{\"flood\":1,\"fire\":1}" then Some({"flood", "fire"})
      else None;
    assert keysOf(a2020.riskFactors) == Some({"flood"});
    assert keysOf(a2021.riskFactors) == Some({"flood", "fire"});
    assert keysOf(broken.riskFactors) == None;
    assert "fire" !in {"flood"} && "fire" in {"flood", "fire"};
    assert [a2020, a2021][1..] == [a2021] && [a2021][1..] == [];
    assert [a2020, broken][1..] == [broken];
    assert KeepTagged([], "fire", keysOf) == Ok([]);
    assert [a2021] + [] == [a2021];
    assert KeepTagged([a2021], "fire", keysOf) == Ok([a2021]);
    assert KeepTagged([broken], "fire", keysOf) == Err(DecodeError(0, "not json"));
  }
}
