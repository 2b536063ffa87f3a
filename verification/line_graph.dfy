/**
 The chart view's query layer: choosing the records of one entity, ordering them by
 year, and projecting them into the chart's four positionally aligned sequences.
 */
module LineGraph {
  import opened Maybe
  import opened Seqs
  import opened StableSort
  import opened DataItems

  // ---------------------------------------------------------------------------
  // Selector
  // ---------------------------------------------------------------------------

  /** The component's optional props; an absent prop and an empty string are both falsy. */
  datatype Props = Props(
    lat: Option<string>,
    long: Option<string>,
    assetName: Option<string>,
    businessCategory: Option<string>)

  /** JavaScript truthiness of an optional string. */
  predicate Truthy(o: Option<string>)
  {
    o.Some? && o.value != ""
  }

  /** Which entity the chart follows. */
  datatype Selector =
    | ByLocation(lat: string, long: string)
    | ByAssetName(assetName: string)
    | ByCategory(businessCategory: string)
    | NoSelector

  /**
   First match wins: a full location, then an asset name, then a business category. The
   selector is present iff some prop pair or prop is truthy, and it carries the props' text.
   */
  function SelectorOf(p: Props): (r: Selector)
    ensures r.ByLocation? <==> Truthy(p.lat) && Truthy(p.long)
    ensures r.ByLocation? ==> p.lat == Some(r.lat) && p.long == Some(r.long)
    ensures r.ByAssetName? <==> !(Truthy(p.lat) && Truthy(p.long)) && Truthy(p.assetName)
    ensures r.ByAssetName? ==> p.assetName == Some(r.assetName)
    ensures r.ByCategory? <==> !(Truthy(p.lat) && Truthy(p.long)) && !Truthy(p.assetName) && Truthy(p.businessCategory)
    ensures r.ByCategory? ==> Truthy(p.businessCategory) && p.businessCategory == Some(r.businessCategory)
    ensures r.NoSelector? <==> !(Truthy(p.lat) && Truthy(p.long)) && !Truthy(p.assetName) && !Truthy(p.businessCategory)
  {
    if Truthy(p.lat) && Truthy(p.long) then ByLocation(p.lat.value, p.long.value)
    else if Truthy(p.assetName) then ByAssetName(p.assetName.value)
    else if Truthy(p.businessCategory) then ByCategory(p.businessCategory.value)
    else NoSelector
  }

  /** An item belongs to the selected entity when the selected fields are equal; no selector matches nothing. */
  function Matches(sel: Selector, item: DataItem): (r: bool)
    ensures sel.NoSelector? ==> !r
    ensures sel.ByLocation? ==> (r <==> item.lat == sel.lat && item.long == sel.long)
    ensures sel.ByAssetName? ==> (r <==> item.assetName == sel.assetName)
    ensures sel.ByCategory? ==> (r <==> item.businessCategory == sel.businessCategory)
  {
    match sel
    case ByLocation(lat, long) => item.lat == lat && item.long == long
    case ByAssetName(name) => item.assetName == name
    case ByCategory(category) => item.businessCategory == category
    case NoSelector => false
  }

  /**
   The filter callback the props determine, in precedence order: with both lat and long an
   item matches iff its coordinates are equal; else with an asset name iff its name is;
   else with a category iff its category is; else nothing matches.
   */
  function Selects(p: Props): (r: DataItem -> bool)
    ensures forall item :: Truthy(p.lat) && Truthy(p.long) ==>
              (r(item) <==> item.lat == p.lat.value && item.long == p.long.value)
    ensures forall item :: !(Truthy(p.lat) && Truthy(p.long)) && Truthy(p.assetName) ==>
              (r(item) <==> item.assetName == p.assetName.value)
    ensures forall item :: !(Truthy(p.lat) && Truthy(p.long)) && !Truthy(p.assetName) && Truthy(p.businessCategory) ==>
              (r(item) <==> item.businessCategory == p.businessCategory.value)
    ensures forall item :: !(Truthy(p.lat) && Truthy(p.long)) && !Truthy(p.assetName) && !Truthy(p.businessCategory) ==>
              !r(item)
  {
    (item: DataItem) => Matches(SelectorOf(p), item)
  }

  /**
   A field below the winning one is ignored: a full location ignores name and category,
   a name ignores the category, and a latitude without a longitude is ignored altogether.
   */
  lemma SelectorIgnoresLowerFields(p: Props, q: Props)
    ensures Truthy(p.lat) && Truthy(p.long) && q.lat == p.lat && q.long == p.long ==>
              SelectorOf(q) == SelectorOf(p)
    ensures !(Truthy(p.lat) && Truthy(p.long)) && !(Truthy(q.lat) && Truthy(q.long))
            && Truthy(p.assetName) && q.assetName == p.assetName ==>
              SelectorOf(q) == SelectorOf(p)
    ensures !Truthy(p.long) ==> SelectorOf(p.(lat := q.lat)) == SelectorOf(p)
  {
  }

  // ---------------------------------------------------------------------------
  // Series
  // ---------------------------------------------------------------------------

  /** The sort key: the integer the Year text parses to. */
  function YearKey(parseYear: string -> int): DataItem -> int
  {
    (item: DataItem) => parseYear(item.year)
  }

  /**
   What the chart draws: year labels, risk ratings (as their text), and the risk-factor
   texts and asset names its tooltips show, all indexed by point.
   */
  datatype Series = Series(
    labels: seq<string>,
    riskRatings: seq<string>,
    riskFactors: seq<string>,
    assetNames: seq<string>)

  /** Point `i` of the series carries the fields of `item`. */
  predicate PointIs(s: Series, i: int, item: DataItem)
  {
    && 0 <= i < |s.labels| && i < |s.riskRatings| && i < |s.riskFactors| && i < |s.assetNames|
    && s.labels[i] == item.year
    && s.riskRatings[i] == item.riskRating
    && s.riskFactors[i] == item.riskFactors
    && s.assetNames[i] == item.assetName
  }

  /** The four projections of the sorted items. */
  function Project(sorted: seq<DataItem>): (s: Series)
    ensures |s.labels| == |s.riskRatings| == |s.riskFactors| == |s.assetNames| == |sorted|
    ensures forall i :: 0 <= i < |sorted| ==> PointIs(s, i, sorted[i])
  {
    Series(
      seq(|sorted|, i requires 0 <= i < |sorted| => sorted[i].year),
      seq(|sorted|, i requires 0 <= i < |sorted| => sorted[i].riskRating),
      seq(|sorted|, i requires 0 <= i < |sorted| => sorted[i].riskFactors),
      seq(|sorted|, i requires 0 <= i < |sorted| => sorted[i].assetName))
  }

  /**
   The chart's effect: None when it returns early (no data, or nothing selected) and the
   chart is left as it was; otherwise the series of the selected items ordered by year.
   */
  function ExtractSeries(data: seq<DataItem>, p: Props, parseYear: string -> int): (r: Option<Series>)
    ensures r.None? <==> forall i :: 0 <= i < |data| ==> !Selects(p)(data[i])
    ensures r.Some? ==> |r.value.labels| == |Filter(Selects(p), data)| > 0
    ensures r.Some? ==> forall i, j :: 0 <= i < j < |r.value.labels| ==>
              parseYear(r.value.labels[i]) <= parseYear(r.value.labels[j])
  {
    if |data| == 0 then None
    else
      var filteredData := Filter(Selects(p), data);
      if |filteredData| == 0 then None
      else
        var sortedData := SortBy(YearKey(parseYear), filteredData);
        Some(Project(sortedData))
  }

  /**
   The series is the projection of THE stable sort by year of the selected items: for
   any sequence that is one, the extracted series is its projection.
   */
  lemma ExtractSeriesIsStableSortOfSelection(data: seq<DataItem>, p: Props, parseYear: string -> int, sorted: seq<DataItem>)
    requires IsStableSortOf(YearKey(parseYear), sorted, Filter(Selects(p), data))
    ensures ExtractSeries(data, p, parseYear) == if sorted == [] then None else Some(Project(sorted))
  {
    var filteredData := Filter(Selects(p), data);
    SortByIsTheStableSort(YearKey(parseYear), filteredData, sorted);
  }

  /** Point `i` of the series shows an item of the data that the selector matches. */
  ghost predicate ShowsSelectedItem(data: seq<DataItem>, p: Props, s: Series, i: int)
  {
    exists item :: item in data && Selects(p)(item) && PointIs(s, i, item)
  }

  /** Every point of the series shows a selected item: no unmatched record is drawn. */
  lemma SeriesShowsOnlySelectedItems(data: seq<DataItem>, p: Props, parseYear: string -> int)
    requires ExtractSeries(data, p, parseYear).Some?
    ensures forall i :: 0 <= i < |ExtractSeries(data, p, parseYear).value.labels| ==>
              ShowsSelectedItem(data, p, ExtractSeries(data, p, parseYear).value, i)
  {
    var filteredData := Filter(Selects(p), data);
    var sortedData := SortBy(YearKey(parseYear), filteredData);
    var s := ExtractSeries(data, p, parseYear).value;
    assert s == Project(sortedData);
    forall i | 0 <= i < |s.labels|
      ensures ShowsSelectedItem(data, p, s, i)
    {
      assert sortedData[i] in multiset(sortedData);
      assert sortedData[i] in filteredData;
      assert PointIs(s, i, sortedData[i]);
    }
  }

  /** Every selected item is drawn, as often as it occurs, and nothing else is. */
  lemma SeriesDrawsEverySelectedItem(data: seq<DataItem>, p: Props, parseYear: string -> int)
    requires ExtractSeries(data, p, parseYear).Some?
    ensures exists sorted :: && multiset(sorted) == multiset(Filter(Selects(p), data))
                             && ExtractSeries(data, p, parseYear) == Some(Project(sorted))
  {
    var sorted := SortBy(YearKey(parseYear), Filter(Selects(p), data));
    assert ExtractSeries(data, p, parseYear) == Some(Project(sorted));
  }

  /** Two records of Asset A, for 2021 and then 2020, are drawn in year order: 2020, then 2021. */
  lemma SeriesExample()
    ensures var a2020 := DataItem("Asset A", "Cat1", "3.5", "{\"flood\":1}", "2020", "10.0", "20.0");
            var a2021 := DataItem("Asset A", "Cat1", "4.0", "{\"flood\":1,\"fire\":1}", "2021", "10.0", "20.0");
            var parseYear := (t: string) => if t == "2020" then 2020 else if t == "2021" then 2021 else 0;
            ExtractSeries([a2021, a2020], Props(None, None, Some("Asset A"), None), parseYear)
            == Some(Series(["2020", "2021"], ["3.5", "4.0"],
                           ["{\"flood\":1}", "{\"flood\":1,\"fire\":1}"], ["Asset A", "Asset A"]))
  {
    var a2020 := DataItem("Asset A", "Cat1", "3.5", "{\"flood\":1}", "2020", "10.0", "20.0");
    var a2021 := DataItem("Asset A", "Cat1", "4.0", "{\"flood\":1,\"fire\":1}", "2021", "10.0", "20.0");
    var parseYear := (t: string) => if t == "2020" then 2020 else if t == "2021" then 2021 else 0;
    var p := Props(None, None, Some("Asset A"), None);
    var key := YearKey(parseYear);
    assert Selects(p)(a2021) && Selects(p)(a2020);
    FilterKeepsAll(Selects(p), [a2021, a2020]);
    assert key(a2021) == 2021 && key(a2020) == 2020;
    assert [a2021, a2020][1..] == [a2020];
    assert SortBy(key, [a2020]) == [a2020] by {
      assert [a2020][1..] == [];
    }
    assert Insert(key, a2021, [a2020]) == [a2020, a2021] by {
      assert [a2020][1..] == [];
      assert Insert(key, a2021, []) == [a2021];
    }
    assert SortBy(key, [a2021, a2020]) == [a2020, a2021];
    assert ExtractSeries([a2021, a2020], p, parseYear) == Some(Project([a2020, a2021]));
    ProjectPair(a2020, a2021);
  }

  /** The projection of two items, field by field. */
  lemma ProjectPair(a: DataItem, b: DataItem)
    ensures Project([a, b])
         == Series([a.year, b.year], [a.riskRating, b.riskRating],
                   [a.riskFactors, b.riskFactors], [a.assetName, b.assetName])
  {
  }
}
