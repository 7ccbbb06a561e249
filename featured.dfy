/** The landing page's property list: the catalog mapped to display records, then
    narrowed by the optional search, type and budget filters. */
module Featured {
  import opened Common
  import Text
  import PC = PropertyCatalog

  /** The display record, without the fields that are only formatted text
      (`startingPrice`, `totalValue`, `expectedYield`, `availableUnits`). */
  datatype DisplayProperty = DisplayProperty(
    id: string,
    image: string,
    title: string,
    location: string,
    city: string,
    propertyType: string,
    priceValue: real,
    tenure: string,
    status: string)

  /** The badge text for a status. */
  function StatusLabel(s: PC.PropertyStatus): (badge: string)
    ensures s == PC.Active <==> badge == "Available"
    ensures s == PC.Funded <==> badge == "Funded"
    ensures s == PC.Upcoming <==> badge == "Upcoming"
  {
    match s
    case Active => "Available"
    case Funded => "Funded"
    case Upcoming => "Upcoming"
  }

  /** The text of `location` before its first comma, or all of it without a comma. */
  function City(location: string): (city: string)
    ensures city <= location
    ensures ',' !in city
    ensures city == location || (|city| < |location| && location[|city|] == ',')
  {
    Text.SplitFirstIsPrefix(location, ',');
    Text.SplitPiecesFree(location, ',');
    Text.Split(location, ',')[0]
  }

  function ToDisplay(p: PC.Property): (d: DisplayProperty)
    ensures d.priceValue == p.price
    ensures d.id == p.id && d.title == p.title && d.location == p.location
    ensures d.city == City(p.location) && d.propertyType == p.propertyType
    ensures d.image == p.image && d.tenure == p.tenure
    ensures d.status == StatusLabel(p.status)
  {
    DisplayProperty(p.id, p.image, p.title, p.location, City(p.location), p.propertyType,
                    p.price, p.tenure, StatusLabel(p.status))
  }

  /** The display mapping, one record per property, in catalog order. */
  function Display(ps: seq<PC.Property>): (ds: seq<DisplayProperty>)
    ensures |ds| == |ps|
    ensures forall i :: 0 <= i < |ps| ==> ds[i] == ToDisplay(ps[i])
  {
    if ps == [] then [] else [ToDisplay(ps[0])] + Display(ps[1..])
  }

  datatype Filters = Filters(searchTerm: string, propertyType: string, budget: string)

  /** A term found in the lower-cased prefix of a text is found in the whole text. */
  lemma PrefixMatchGrows(prefix: string, text: string, t: string)
    ensures prefix <= text && Text.Contains(Text.Lower(prefix), t) ==>
              Text.Contains(Text.Lower(text), t)
  {
    if prefix <= text && Text.Contains(Text.Lower(prefix), t) {
      Text.LowerPrefix(text, |prefix|);
      assert text[..|prefix|] == prefix;
      Text.ContainsGrows(Text.Lower(prefix), Text.Lower(text), t);
    }
  }

  /** The search clause: an empty term passes; otherwise the lower-cased term must occur
      in the lower-cased title, location or city. Since the city of a display record
      is a prefix of its location, the city clause never lets a record through that the
      location clause would not. */
  function MatchesSearch(d: DisplayProperty, term: string): (b: bool)
    ensures term == "" ==> b
    ensures d.city <= d.location ==>
              (b <==> term == "" ||
                      Text.Contains(Text.Lower(d.title), Text.Lower(term)) ||
                      Text.Contains(Text.Lower(d.location), Text.Lower(term)))
  {
    PrefixMatchGrows(d.city, d.location, Text.Lower(term));
    term == "" ||
    var t := Text.Lower(term);
    Text.Contains(Text.Lower(d.title), t) ||
    Text.Contains(Text.Lower(d.location), t) ||
    Text.Contains(Text.Lower(d.city), t)
  }

  /** The type clause: `""` and `"none"` keep every record; any other value keeps
      exactly the records of that type. */
  function MatchesType(d: DisplayProperty, propertyType: string): (b: bool)
    ensures propertyType == "" || propertyType == "none" ==> b
    ensures propertyType != "" && propertyType != "none" ==> (b <==> d.propertyType == propertyType)
  {
    !(propertyType != "" && propertyType != "none" && propertyType != d.propertyType)
  }

  /** The budget `switch`: each of the five bucket names keeps exactly the prices of its
      half-open interval; `""`, `"none"` and any other string reject nothing. */
  function MatchesBudget(budget: string, price: real): (b: bool)
    ensures budget !in BucketNames ==> b
    ensures forall i :: 0 <= i < 5 && budget == BucketNames[i] ==> (b <==> InBucket(i, price))
  {
    if budget == "" || budget == "none" then true
    else if budget == "0-10L" then !(price >= 1000000.0)
    else if budget == "10L-25L" then !(price < 1000000.0 || price >= 2500000.0)
    else if budget == "25L-50L" then !(price < 2500000.0 || price >= 5000000.0)
    else if budget == "50L-1Cr" then !(price < 5000000.0 || price >= 10000000.0)
    else if budget == "1Cr+" then !(price < 10000000.0)
    else true
  }

  /** The filter callback: the three clauses, all of which must pass. */
  predicate Keep(d: DisplayProperty, f: Filters) {
    MatchesSearch(d, f.searchTerm) && MatchesType(d, f.propertyType) &&
    MatchesBudget(f.budget, d.priceValue)
  }

  /** The callback for one filters object, as the value handed to `filter`. */
  function Keeper(f: Filters): DisplayProperty -> bool {
    (d: DisplayProperty) => Keep(d, f)
  }

  /** `filteredProperties`: everything without a filters object, else the records the
      callback keeps, in order. */
  function FilterDisplay(ds: seq<DisplayProperty>, filters: Option<Filters>): (r: seq<DisplayProperty>)
    ensures filters.None? ==> r == ds
    ensures IsSubsequence(r, ds)
    ensures forall d :: d in r <==> d in ds && (filters.None? || Keep(d, filters.value))
    ensures filters.Some? ==> |r| == Count(Keeper(filters.value), ds)
  {
    match filters
    case None => SubsequenceOfSelf(ds); ds
    case Some(f) => Filter(Keeper(f), ds)
  }

  /** What the landing page shows for a catalog snapshot: at most one card per
      property, each the display record of some property, and all of them when no
      filters object is given. */
  function FeaturedList(ps: seq<PC.Property>, filters: Option<Filters>): (r: seq<DisplayProperty>)
    ensures |r| <= |ps|
    ensures filters.None? ==> |r| == |ps|
    ensures forall d :: d in r ==> exists i :: 0 <= i < |ps| && d == ToDisplay(ps[i])
  {
    FilterDisplay(Display(ps), filters)
  }

  // ---------------------------------------------------------------- budget buckets

  /** The five bucket names, cheapest first. */
  const BucketNames: seq<string> := ["0-10L", "10L-25L", "25L-50L", "50L-1Cr", "1Cr+"]

  /** The lower bound of bucket `i`; the cheapest bucket has none. */
  function BucketLow(i: nat): Option<real>
    requires i < 5
  {
    [None, Some(1000000.0), Some(2500000.0), Some(5000000.0), Some(10000000.0)][i]
  }

  /** The upper bound, exclusive, of bucket `i`; the dearest bucket has none. */
  function BucketHigh(i: nat): Option<real>
    requires i < 5
  {
    [Some(1000000.0), Some(2500000.0), Some(5000000.0), Some(10000000.0), None][i]
  }

  predicate InBucket(i: nat, price: real)
    requires i < 5
  {
    (BucketLow(i).None? || BucketLow(i).value <= price) &&
    (BucketHigh(i).None? || price < BucketHigh(i).value)
  }

  /** The buckets partition the prices: every price lies in exactly one of them. */
  lemma BucketsPartition(price: real)
    ensures exists i :: 0 <= i < 5 && MatchesBudget(BucketNames[i], price)
    ensures forall i, j :: (0 <= i < 5 && 0 <= j < 5 && MatchesBudget(BucketNames[i], price) &&
              MatchesBudget(BucketNames[j], price)) ==> i == j
  {
    var k := if price < 1000000.0 then 0 else if price < 2500000.0 then 1
             else if price < 5000000.0 then 2 else if price < 10000000.0 then 3 else 4;
    assert MatchesBudget(BucketNames[k], price);
  }

  /** With every clause neutral, the filter is the identity. */
  lemma NeutralFiltersKeepAll(ds: seq<DisplayProperty>)
    ensures FilterDisplay(ds, Some(Filters("", "none", "none"))) == ds
  {
  }
}
