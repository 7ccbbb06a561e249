/** The admin report: the catalog narrowed by a type and a status filter, its revenue
    and profit totals, and its projection to comma-separated text. */
module Reports {
  import opened Common
  import Text
  import PC = PropertyCatalog

  /** The share of the raised amount booked as profit, exactly 15/100. */
  const ProfitMargin: real := 0.15

  /** The filter value that disables a filter. */
  const All := "all"

  // ---------------------------------------------------------------- filter and totals

  predicate MatchesReport(p: PC.Property, typeFilter: string, statusFilter: string) {
    (typeFilter == All || p.propertyType == typeFilter) &&
    (statusFilter == All || PC.StatusName(p.status) == statusFilter)
  }

  /** The filter callback for one pair of filter values, as the value handed to `filter`. */
  function ReportKeeper(typeFilter: string, statusFilter: string): PC.Property -> bool {
    (p: PC.Property) => MatchesReport(p, typeFilter, statusFilter)
  }

  /** `filteredProperties`: the records both filters accept, in catalog order. */
  function ReportFiltered(ps: seq<PC.Property>, typeFilter: string, statusFilter: string): (r: seq<PC.Property>)
    ensures typeFilter == All && statusFilter == All ==> r == ps
    ensures IsSubsequence(r, ps)
    ensures forall p :: p in r <==> p in ps && MatchesReport(p, typeFilter, statusFilter)
    ensures |r| == Count(ReportKeeper(typeFilter, statusFilter), ps)
  {
    Filter(ReportKeeper(typeFilter, statusFilter), ps)
  }

  /** The profit booked on one record. */
  function Profit(p: PC.Property): real {
    p.raisedAmount * ProfitMargin
  }

  /** `totalProfit`: the per-record profits added up. Since `totalRevenue` is the raised
      amounts added up, the summed profit is the margin of the revenue. */
  function TotalProfit(ps: seq<PC.Property>): (r: real)
    ensures r == ProfitMargin * PC.SumRaised(ps)
  {
    if ps == [] then 0.0 else Profit(ps[0]) + TotalProfit(ps[1..])
  }

  /** `profit / targetAmount * 100`, a number only when the target is not zero. */
  function Roi(p: PC.Property): (r: Option<real>)
    ensures r.Some? <==> p.targetAmount != 0.0
    ensures r.Some? ==> r.value * p.targetAmount == Profit(p) * 100.0
  {
    if p.targetAmount == 0.0 then None else Some(Profit(p) / p.targetAmount * 100.0)
  }

  // ---------------------------------------------------------------- CSV projection

  const Headers: seq<string> :=
    ["Property Name", "Type", "Status", "Target Amount", "Raised Amount", "Profit", "ROI %"]

  /** The ROI cell: two decimals of the ratio, or the text JavaScript prints for the
      infinite or undefined quotient of a division by a zero target. */
  function RoiText(p: PC.Property, fixed2: real -> string): (t: string)
    ensures p.targetAmount != 0.0 ==> t == fixed2(Profit(p) / p.targetAmount * 100.0)
    ensures p.targetAmount == 0.0 && p.raisedAmount > 0.0 ==> t == "Infinity"
    ensures p.targetAmount == 0.0 && p.raisedAmount < 0.0 ==> t == "-Infinity"
    ensures p.targetAmount == 0.0 && p.raisedAmount == 0.0 ==> t == "NaN"
  {
    match Roi(p)
    case Some(v) => fixed2(v)
    case None =>
      if Profit(p) > 0.0 then "Infinity" else if Profit(p) < 0.0 then "-Infinity" else "NaN"
  }

  /** The seven cells of a data row; `fixed2` stands for `toFixed(2)`. */
  function Row(p: PC.Property, fixed2: real -> string): (cells: seq<string>)
    ensures |cells| == |Headers|
  {
    [p.title, p.propertyType, PC.StatusName(p.status), fixed2(p.targetAmount),
     fixed2(p.raisedAmount), fixed2(Profit(p)), RoiText(p, fixed2)]
  }

  /** The lines of the file: the header line, then one line per record, cells joined
      by commas without quoting. */
  function CsvLines(ps: seq<PC.Property>, fixed2: real -> string): (ls: seq<string>)
    ensures |ls| == |ps| + 1
    ensures ls[0] == Text.Join(Headers, ',')
    ensures forall i :: 1 <= i < |ls| ==> ls[i] == Text.Join(Row(ps[i - 1], fixed2), ',')
  {
    [Text.Join(Headers, ',')] + seq(|ps|, i requires 0 <= i < |ps| => Text.Join(Row(ps[i], fixed2), ','))
  }

  /** The file text: its lines joined by newlines, so it holds one newline per record
      on top of those inside the cells. */
  function CsvText(ps: seq<PC.Property>, fixed2: real -> string): (t: string)
    ensures Text.CountChar(t, '\n') == |ps| + Text.CountCharAll(CsvLines(ps, fixed2), '\n')
  {
    Text.JoinCount(CsvLines(ps, fixed2), '\n');
    Text.Join(CsvLines(ps, fixed2), '\n')
  }

  datatype Export = NoData | Csv(text: string)

  /** `exportToCSV`: refuses an empty selection, otherwise produces the file text. */
  function ExportCsv(ps: seq<PC.Property>, typeFilter: string, statusFilter: string,
                     fixed2: real -> string): (e: Export)
    ensures e.NoData? <==> ReportFiltered(ps, typeFilter, statusFilter) == []
    ensures e.Csv? ==> e.text == CsvText(ReportFiltered(ps, typeFilter, statusFilter), fixed2)
  {
    var rows := ReportFiltered(ps, typeFilter, statusFilter);
    if |rows| == 0 then NoData else Csv(CsvText(rows, fixed2))
  }

  // ---------------------------------------------------------------- shape of the file

  /** Every newline in the file either separates two lines or sits inside a cell. */
  lemma CsvLineCount(ps: seq<PC.Property>, fixed2: real -> string)
    ensures |Text.Split(CsvText(ps, fixed2), '\n')| ==
            |ps| + 1 + Text.CountCharAll(CsvLines(ps, fixed2), '\n')
  {
    Text.SplitLength(CsvText(ps, fixed2), '\n');
    Text.JoinCount(CsvLines(ps, fixed2), '\n');
  }

  /** No cell of the file can hold a line break. */
  ghost predicate NewlineFree(ps: seq<PC.Property>, fixed2: real -> string) {
    (forall i :: 0 <= i < |ps| ==> '\n' !in ps[i].title && '\n' !in ps[i].propertyType) &&
    (forall x: real :: '\n' !in fixed2(x))
  }

  /** A line whose cells hold no line break holds none either. */
  lemma LineNewlineFree(cells: seq<string>)
    requires forall i :: 0 <= i < |cells| ==> '\n' !in cells[i]
    ensures '\n' !in Text.Join(cells, ',')
  {
    Text.CountCharAllZero(cells, '\n');
    Text.JoinCountOther(cells, ',', '\n');
    Text.CountCharZero(Text.Join(cells, ','), '\n');
  }

  /** A data line holds no line break when its title, its type and the number
      formatting hold none. */
  lemma RowNewlineFree(p: PC.Property, fixed2: real -> string)
    requires '\n' !in p.title && '\n' !in p.propertyType
    requires forall x: real :: '\n' !in fixed2(x)
    ensures '\n' !in Text.Join(Row(p, fixed2), ',')
  {
    var cells := Row(p, fixed2);
    assert '\n' !in RoiText(p, fixed2);
    assert forall k :: 0 <= k < |cells| ==> '\n' !in cells[k];
    LineNewlineFree(cells);
  }

  /** With no line break inside a cell, splitting the file at newlines gives back the
      header line and then exactly one line per record, in order. */
  lemma CsvSplitsIntoLines(ps: seq<PC.Property>, fixed2: real -> string)
    requires NewlineFree(ps, fixed2)
    ensures Text.Split(CsvText(ps, fixed2), '\n') == CsvLines(ps, fixed2)
    ensures |Text.Split(CsvText(ps, fixed2), '\n')| == |ps| + 1
  {
    var ls := CsvLines(ps, fixed2);
    LineNewlineFree(Headers);
    forall i | 1 <= i < |ls|
      ensures '\n' !in ls[i]
    {
      RowNewlineFree(ps[i - 1], fixed2);
    }
    Text.SplitJoin(ls, '\n');
  }

  /** Cells are not quoted: splitting a data line at commas yields the seven cells plus
      one extra piece per comma inside them. */
  lemma RowFieldCount(p: PC.Property, fixed2: real -> string)
    ensures |Text.Split(Text.Join(Row(p, fixed2), ','), ',')| ==
            7 + Text.CountCharAll(Row(p, fixed2), ',')
  {
    Text.SplitLength(Text.Join(Row(p, fixed2), ','), ',');
    Text.JoinCount(Row(p, fixed2), ',');
  }

  /** A comma in a title shifts the columns: the line splits into more than seven fields. */
  lemma CommaInTitleBreaksRow(p: PC.Property, fixed2: real -> string)
    requires ',' in p.title
    ensures |Text.Split(Text.Join(Row(p, fixed2), ','), ',')| > 7
  {
    RowFieldCount(p, fixed2);
    Text.CountCharZero(p.title, ',');
    assert Row(p, fixed2)[0] == p.title;
  }

  /** Without commas in the cells a data line splits back into exactly its cells. */
  lemma RowRoundTrip(p: PC.Property, fixed2: real -> string)
    requires forall i :: 0 <= i < 7 ==> ',' !in Row(p, fixed2)[i]
    ensures Text.Split(Text.Join(Row(p, fixed2), ','), ',') == Row(p, fixed2)
  {
    Text.SplitJoin(Row(p, fixed2), ',');
  }
}
