/** The analytics dashboard: the catalog grouped by type and by status with
    find-or-append reducers, the six-point trend slice, and the overall totals. */
module Analytics {
  import opened Common
  import PC = PropertyCatalog
  import R = Reports

  // ---------------------------------------------------------------- grouping by type

  /** One bar of the type chart. */
  datatype TypeGroup = TypeGroup(propertyType: string, count: nat, profit: real, revenue: real)

  /** The position of the group for type `t`, if the accumulator has one. */
  function FindType(acc: seq<TypeGroup>, t: string): (r: Option<nat>)
    ensures r.Some? ==> r.value < |acc| && acc[r.value].propertyType == t &&
                        forall k :: 0 <= k < r.value ==> acc[k].propertyType != t
    ensures r.None? ==> forall k :: 0 <= k < |acc| ==> acc[k].propertyType != t
  {
    FindFirst((g: TypeGroup) => g.propertyType == t, acc)
  }

  /** One step of the type reducer: bump the group of the record's type, or append a
      new group for it. */
  function TypeStep(acc: seq<TypeGroup>, p: PC.Property): seq<TypeGroup> {
    match FindType(acc, p.propertyType)
    case Some(i) =>
      acc[i := acc[i].(count := acc[i].count + 1, profit := acc[i].profit + R.Profit(p),
                       revenue := acc[i].revenue + p.raisedAmount)]
    case None => acc + [TypeGroup(p.propertyType, 1, R.Profit(p), p.raisedAmount)]
  }

  /** `propertyTypeData`: the reducer folded over the catalog from the left. There are
      never more bars than records, and every bar counts at least one record. */
  function TypeGroups(ps: seq<PC.Property>): (gs: seq<TypeGroup>)
    ensures |gs| <= |ps|
    ensures forall k :: 0 <= k < |gs| ==> gs[k].count >= 1
  {
    if ps == [] then [] else TypeStep(TypeGroups(ps[..|ps| - 1]), ps[|ps| - 1])
  }

  function Types(ps: seq<PC.Property>): (ts: seq<string>)
    ensures |ts| == |ps| && forall i :: 0 <= i < |ps| ==> ts[i] == ps[i].propertyType
  {
    seq(|ps|, i requires 0 <= i < |ps| => ps[i].propertyType)
  }

  function GroupTypes(gs: seq<TypeGroup>): (ts: seq<string>)
    ensures |ts| == |gs| && forall i :: 0 <= i < |gs| ==> ts[i] == gs[i].propertyType
  {
    seq(|gs|, i requires 0 <= i < |gs| => gs[i].propertyType)
  }

  /** The records of one type, in catalog order. */
  function OfType(ps: seq<PC.Property>, t: string): seq<PC.Property> {
    if ps == [] then []
    else (if ps[0].propertyType == t then [ps[0]] else []) + OfType(ps[1..], t)
  }

  lemma {:induction false} OfTypeSnoc(ps: seq<PC.Property>, p: PC.Property, t: string)
    ensures OfType(ps + [p], t) == OfType(ps, t) + (if p.propertyType == t then [p] else [])
  {
    if ps == [] {
      assert ps + [p] == [p] && [p][1..] == [];
    } else {
      var q := ps + [p];
      assert q[0] == ps[0] && q[1..] == ps[1..] + [p];
      OfTypeSnoc(ps[1..], p, t);
      var head := if ps[0].propertyType == t then [ps[0]] else [];
      assert OfType(q, t) == head + OfType(q[1..], t);
      assert OfType(ps, t) == head + OfType(ps[1..], t);
    }
  }

  lemma {:induction false} OfAbsentType(ps: seq<PC.Property>, t: string)
    requires t !in Types(ps)
    ensures OfType(ps, t) == []
  {
    if ps != [] {
      assert Types(ps)[1..] == Types(ps[1..]);
      OfAbsentType(ps[1..], t);
    }
  }

  /** The groups are the distinct types, in the order they first occur in the catalog. */
  lemma {:induction false} TypeGroupKeys(ps: seq<PC.Property>)
    ensures GroupTypes(TypeGroups(ps)) == Dedup(Types(ps))
  {
    if ps != [] {
      var init := ps[..|ps| - 1];
      var p := ps[|ps| - 1];
      TypeGroupKeys(init);
      var acc := TypeGroups(init);
      assert Types(ps)[..|ps| - 1] == Types(init);
      match FindType(acc, p.propertyType)
      case Some(i) =>
        assert GroupTypes(acc)[i] == p.propertyType;
        assert GroupTypes(TypeGroups(ps)) == GroupTypes(acc);
      case None =>
        assert p.propertyType !in GroupTypes(acc);
        assert GroupTypes(TypeGroups(ps)) == GroupTypes(acc) + [p.propertyType];
    }
  }

  /** Exactly one group per type that occurs. */
  lemma TypeGroupsDistinct(ps: seq<PC.Property>)
    ensures Distinct(GroupTypes(TypeGroups(ps)))
    ensures forall t :: t in GroupTypes(TypeGroups(ps)) <==> t in Types(ps)
  {
    TypeGroupKeys(ps);
    DedupProperties(Types(ps));
  }

  /** What each group accumulates: its count is the number of records of its type, its
      revenue their raised amounts, its profit the margin of that revenue. */
  predicate GroupSummarises(ps: seq<PC.Property>, g: TypeGroup) {
    g.count == |OfType(ps, g.propertyType)| &&
    g.revenue == PC.SumRaised(OfType(ps, g.propertyType)) &&
    g.profit == R.ProfitMargin * g.revenue
  }

  lemma {:induction false} TypeGroupTotals(ps: seq<PC.Property>)
    ensures forall k :: 0 <= k < |TypeGroups(ps)| ==> GroupSummarises(ps, TypeGroups(ps)[k])
  {
    if ps != [] {
      var init := ps[..|ps| - 1];
      var p := ps[|ps| - 1];
      var acc := TypeGroups(init);
      TypeGroupTotals(init);
      TypeGroupsDistinct(init);
      assert ps == init + [p];
      var gs := TypeGroups(ps);
      forall k | 0 <= k < |gs|
        ensures GroupSummarises(ps, gs[k])
      {
        var t := gs[k].propertyType;
        OfTypeSnoc(init, p, t);
        match FindType(acc, p.propertyType)
        case Some(i) =>
          if k == i {
            assert GroupSummarises(init, acc[i]);
            assert t == p.propertyType;
            assert OfType(ps, t) == OfType(init, t) + [p];
            PC.SumRaisedSnoc(OfType(init, t), p);
            assert gs[k].revenue == acc[i].revenue + p.raisedAmount;
          } else {
            assert GroupTypes(acc)[k] != GroupTypes(acc)[i];
            assert GroupSummarises(init, acc[k]);
            assert gs[k] == acc[k];
            assert OfType(ps, t) == OfType(init, t);
          }
        case None =>
          if k == |acc| {
            assert t !in GroupTypes(acc);
            OfAbsentType(init, t);
            assert OfType(ps, t) == [p];
            assert PC.SumRaised([p]) == p.raisedAmount by {
              assert [p][1..] == [];
            }
          } else {
            assert GroupSummarises(init, acc[k]);
            assert gs[k] == acc[k] && GroupTypes(acc)[k] == t;
            assert OfType(ps, t) == OfType(init, t);
          }
      }
    }
  }

  /** A group's profit is the report profit of its records. */
  lemma TypeGroupProfit(ps: seq<PC.Property>, k: nat)
    requires k < |TypeGroups(ps)|
    ensures TypeGroups(ps)[k].profit == R.TotalProfit(OfType(ps, TypeGroups(ps)[k].propertyType))
  {
    TypeGroupTotals(ps);
  }

  function SumCounts(gs: seq<TypeGroup>): nat {
    if gs == [] then 0 else gs[0].count + SumCounts(gs[1..])
  }

  function SumRevenue(gs: seq<TypeGroup>): real {
    if gs == [] then 0.0 else gs[0].revenue + SumRevenue(gs[1..])
  }

  function SumProfit(gs: seq<TypeGroup>): real {
    if gs == [] then 0.0 else gs[0].profit + SumProfit(gs[1..])
  }

  lemma {:induction false} SumsUpdate(gs: seq<TypeGroup>, i: nat, g: TypeGroup)
    requires i < |gs|
    ensures SumCounts(gs[i := g]) == SumCounts(gs) - gs[i].count + g.count
    ensures SumRevenue(gs[i := g]) == SumRevenue(gs) - gs[i].revenue + g.revenue
  {
    if i == 0 {
      assert gs[i := g][1..] == gs[1..];
    } else {
      assert gs[i := g][1..] == gs[1..][i - 1 := g];
      SumsUpdate(gs[1..], i - 1, g);
    }
  }

  lemma {:induction false} SumsAppend(gs: seq<TypeGroup>, g: TypeGroup)
    ensures SumCounts(gs + [g]) == SumCounts(gs) + g.count
    ensures SumRevenue(gs + [g]) == SumRevenue(gs) + g.revenue
  {
    if gs == [] {
      assert gs + [g] == [g] && [g][1..] == [];
    } else {
      assert (gs + [g])[0] == gs[0] && (gs + [g])[1..] == gs[1..] + [g];
      SumsAppend(gs[1..], g);
    }
  }

  /** Every record lands in exactly one group: the counts add up to the catalog size and
      the revenues to the catalog's raised amount. */
  lemma {:induction false} TypeGroupSums(ps: seq<PC.Property>)
    ensures SumCounts(TypeGroups(ps)) == |ps|
    ensures SumRevenue(TypeGroups(ps)) == PC.SumRaised(ps)
  {
    if ps != [] {
      var init := ps[..|ps| - 1];
      var p := ps[|ps| - 1];
      var acc := TypeGroups(init);
      TypeGroupSums(init);
      assert ps == init + [p];
      PC.SumRaisedSnoc(init, p);
      match FindType(acc, p.propertyType)
      case Some(i) =>
        SumsUpdate(acc, i, acc[i].(count := acc[i].count + 1, profit := acc[i].profit + R.Profit(p),
                                   revenue := acc[i].revenue + p.raisedAmount));
      case None =>
        SumsAppend(acc, TypeGroup(p.propertyType, 1, R.Profit(p), p.raisedAmount));
    }
  }

  lemma {:induction false} SumProfitIsMargin(ps: seq<PC.Property>, gs: seq<TypeGroup>)
    requires forall k :: 0 <= k < |gs| ==> GroupSummarises(ps, gs[k])
    ensures SumProfit(gs) == R.ProfitMargin * SumRevenue(gs)
  {
    if gs != [] {
      assert GroupSummarises(ps, gs[0]);
      SumProfitIsMargin(ps, gs[1..]);
    }
  }

  /** `totalProfit` is what the type groups' profits add up to. */
  lemma TypeProfitSum(ps: seq<PC.Property>)
    ensures SumProfit(TypeGroups(ps)) == R.TotalProfit(ps)
  {
    TypeGroupTotals(ps);
    TypeGroupSums(ps);
    SumProfitIsMargin(ps, TypeGroups(ps));
  }

  /** The reducer as the page runs it: a pass over the catalog with an inner search of
      the accumulator, bumping a found group in place or appending a new one. */
  method GroupByType(ps: seq<PC.Property>) returns (acc: seq<TypeGroup>)
    ensures acc == TypeGroups(ps)
  {
    acc := [];
    var n := 0;
    while n < |ps|
      invariant 0 <= n <= |ps|
      invariant acc == TypeGroups(ps[..n])
    {
      var p := ps[n];
      var j := 0;
      while j < |acc| && acc[j].propertyType != p.propertyType
        invariant 0 <= j <= |acc|
        invariant forall k :: 0 <= k < j ==> acc[k].propertyType != p.propertyType
      {
        j := j + 1;
      }
      assert ps[..n + 1][..n] == ps[..n];
      ghost var prev := acc;
      assert FindType(prev, p.propertyType) == if j < |prev| then Some(j) else None;
      if j < |acc| {
        var g := acc[j];
        acc := acc[j := g.(count := g.count + 1, profit := g.profit + p.raisedAmount * R.ProfitMargin,
                           revenue := g.revenue + p.raisedAmount)];
      } else {
        acc := acc + [TypeGroup(p.propertyType, 1, p.raisedAmount * R.ProfitMargin, p.raisedAmount)];
      }
      assert acc == TypeStep(prev, p);
      assert TypeGroups(ps[..n + 1]) == TypeStep(TypeGroups(ps[..n]), p);
      n := n + 1;
    }
    assert ps[..|ps|] == ps;
  }

  // ---------------------------------------------------------------- grouping by status

  /** One slice of the status chart. */
  datatype StatusGroup = StatusGroup(status: PC.PropertyStatus, count: nat)

  function FindStatus(acc: seq<StatusGroup>, s: PC.PropertyStatus): (r: Option<nat>)
    ensures r.Some? ==> r.value < |acc| && acc[r.value].status == s &&
                        forall k :: 0 <= k < r.value ==> acc[k].status != s
    ensures r.None? ==> forall k :: 0 <= k < |acc| ==> acc[k].status != s
  {
    FindFirst((g: StatusGroup) => g.status == s, acc)
  }

  /** One step of the status reducer: bump the group of the record's status, or append
      a new group for it. */
  function StatusStep(acc: seq<StatusGroup>, p: PC.Property): seq<StatusGroup> {
    match FindStatus(acc, p.status)
    case Some(i) => acc[i := acc[i].(count := acc[i].count + 1)]
    case None => acc + [StatusGroup(p.status, 1)]
  }

  /** `statusData`: the reducer folded over the catalog from the left. There are never
      more slices than records, and every slice counts at least one record. */
  function StatusGroups(ps: seq<PC.Property>): (gs: seq<StatusGroup>)
    ensures |gs| <= |ps|
    ensures forall k :: 0 <= k < |gs| ==> gs[k].count >= 1
  {
    if ps == [] then [] else StatusStep(StatusGroups(ps[..|ps| - 1]), ps[|ps| - 1])
  }

  function Statuses(ps: seq<PC.Property>): (ss: seq<PC.PropertyStatus>)
    ensures |ss| == |ps| && forall i :: 0 <= i < |ps| ==> ss[i] == ps[i].status
  {
    seq(|ps|, i requires 0 <= i < |ps| => ps[i].status)
  }

  function GroupStatuses(gs: seq<StatusGroup>): (ss: seq<PC.PropertyStatus>)
    ensures |ss| == |gs| && forall i :: 0 <= i < |gs| ==> ss[i] == gs[i].status
  {
    seq(|gs|, i requires 0 <= i < |gs| => gs[i].status)
  }

  /** The number of records with status `s`. */
  function CountOfStatus(ps: seq<PC.Property>, s: PC.PropertyStatus): nat {
    if ps == [] then 0 else (if ps[0].status == s then 1 else 0) + CountOfStatus(ps[1..], s)
  }

  lemma {:induction false} CountOfStatusSnoc(ps: seq<PC.Property>, p: PC.Property, s: PC.PropertyStatus)
    ensures CountOfStatus(ps + [p], s) == CountOfStatus(ps, s) + (if p.status == s then 1 else 0)
  {
    if ps == [] {
      assert ps + [p] == [p] && [p][1..] == [];
    } else {
      assert (ps + [p])[0] == ps[0] && (ps + [p])[1..] == ps[1..] + [p];
      CountOfStatusSnoc(ps[1..], p, s);
    }
  }

  lemma {:induction false} CountOfAbsentStatus(ps: seq<PC.Property>, s: PC.PropertyStatus)
    requires s !in Statuses(ps)
    ensures CountOfStatus(ps, s) == 0
  {
    if ps != [] {
      assert Statuses(ps)[1..] == Statuses(ps[1..]);
      CountOfAbsentStatus(ps[1..], s);
    }
  }

  /** The groups are the distinct statuses, in the order they first occur. */
  lemma {:induction false} StatusGroupKeys(ps: seq<PC.Property>)
    ensures GroupStatuses(StatusGroups(ps)) == Dedup(Statuses(ps))
  {
    if ps != [] {
      var init := ps[..|ps| - 1];
      var p := ps[|ps| - 1];
      StatusGroupKeys(init);
      var acc := StatusGroups(init);
      assert Statuses(ps)[..|ps| - 1] == Statuses(init);
      match FindStatus(acc, p.status)
      case Some(i) =>
        assert GroupStatuses(acc)[i] == p.status;
        assert GroupStatuses(StatusGroups(ps)) == GroupStatuses(acc);
      case None =>
        assert p.status !in GroupStatuses(acc);
        assert GroupStatuses(StatusGroups(ps)) == GroupStatuses(acc) + [p.status];
    }
  }

  /** Exactly one group per status that occurs. */
  lemma StatusGroupsDistinct(ps: seq<PC.Property>)
    ensures Distinct(GroupStatuses(StatusGroups(ps)))
    ensures forall s :: s in GroupStatuses(StatusGroups(ps)) <==> s in Statuses(ps)
  {
    StatusGroupKeys(ps);
    DedupProperties(Statuses(ps));
  }

  /** Each group counts the records of its status. */
  lemma {:induction false} StatusGroupCounts(ps: seq<PC.Property>)
    ensures forall k :: 0 <= k < |StatusGroups(ps)| ==>
              StatusGroups(ps)[k].count == CountOfStatus(ps, StatusGroups(ps)[k].status)
  {
    if ps != [] {
      var init := ps[..|ps| - 1];
      var p := ps[|ps| - 1];
      var acc := StatusGroups(init);
      StatusGroupCounts(init);
      StatusGroupsDistinct(init);
      assert ps == init + [p];
      var gs := StatusGroups(ps);
      forall k | 0 <= k < |gs|
        ensures gs[k].count == CountOfStatus(ps, gs[k].status)
      {
        var s := gs[k].status;
        CountOfStatusSnoc(init, p, s);
        match FindStatus(acc, p.status)
        case Some(i) =>
          if k != i {
            assert GroupStatuses(acc)[k] != GroupStatuses(acc)[i];
          }
        case None =>
          if k == |acc| {
            assert s !in GroupStatuses(acc);
            CountOfAbsentStatus(init, s);
          } else {
            assert GroupStatuses(acc)[k] == s;
          }
      }
    }
  }

  function SumStatusCounts(gs: seq<StatusGroup>): nat {
    if gs == [] then 0 else gs[0].count + SumStatusCounts(gs[1..])
  }

  lemma {:induction false} StatusSumUpdate(gs: seq<StatusGroup>, i: nat, g: StatusGroup)
    requires i < |gs|
    ensures SumStatusCounts(gs[i := g]) == SumStatusCounts(gs) - gs[i].count + g.count
  {
    if i == 0 {
      assert gs[i := g][1..] == gs[1..];
    } else {
      assert gs[i := g][1..] == gs[1..][i - 1 := g];
      StatusSumUpdate(gs[1..], i - 1, g);
    }
  }

  lemma {:induction false} StatusSumAppend(gs: seq<StatusGroup>, g: StatusGroup)
    ensures SumStatusCounts(gs + [g]) == SumStatusCounts(gs) + g.count
  {
    if gs == [] {
      assert gs + [g] == [g] && [g][1..] == [];
    } else {
      assert (gs + [g])[0] == gs[0] && (gs + [g])[1..] == gs[1..] + [g];
      StatusSumAppend(gs[1..], g);
    }
  }

  /** The status counts add up to the catalog size. */
  lemma {:induction false} StatusCountsSum(ps: seq<PC.Property>)
    ensures SumStatusCounts(StatusGroups(ps)) == |ps|
  {
    if ps != [] {
      var init := ps[..|ps| - 1];
      var p := ps[|ps| - 1];
      var acc := StatusGroups(init);
      StatusCountsSum(init);
      match FindStatus(acc, p.status)
      case Some(i) => StatusSumUpdate(acc, i, acc[i].(count := acc[i].count + 1));
      case None => StatusSumAppend(acc, StatusGroup(p.status, 1));
    }
  }

  /** The status reducer as the page runs it. */
  method GroupByStatus(ps: seq<PC.Property>) returns (acc: seq<StatusGroup>)
    ensures acc == StatusGroups(ps)
  {
    acc := [];
    var n := 0;
    while n < |ps|
      invariant 0 <= n <= |ps|
      invariant acc == StatusGroups(ps[..n])
    {
      var p := ps[n];
      var j := 0;
      while j < |acc| && acc[j].status != p.status
        invariant 0 <= j <= |acc|
        invariant forall k :: 0 <= k < j ==> acc[k].status != p.status
      {
        j := j + 1;
      }
      assert ps[..n + 1][..n] == ps[..n];
      if j < |acc| {
        acc := acc[j := acc[j].(count := acc[j].count + 1)];
      } else {
        acc := acc + [StatusGroup(p.status, 1)];
      }
      n := n + 1;
    }
    assert ps[..|ps|] == ps;
  }

  // ---------------------------------------------------------------- trend and totals

  /** One point of the investment trend, in units of 100,000. */
  datatype TrendPoint = TrendPoint(month: string, investment: real, target: real)

  const MonthNames: seq<string> := ["Jan", "Feb", "Mar", "Apr", "May", "Jun"]

  /** `trendData`: the first six records, labelled with the first six months. The
      `Month n` fallback label is never reached, as a slice of six has no seventh index. */
  function TrendData(ps: seq<PC.Property>): (ts: seq<TrendPoint>)
    ensures |ts| == Min(6, |ps|)
    ensures forall i :: 0 <= i < |ts| ==>
              ts[i].month == MonthNames[i] &&
              ts[i].investment * 100000.0 == ps[i].raisedAmount &&
              ts[i].target * 100000.0 == ps[i].targetAmount
  {
    seq(Min(6, |ps|), i requires 0 <= i < Min(6, |ps|) =>
      TrendPoint(MonthNames[i], ps[i].raisedAmount / 100000.0, ps[i].targetAmount / 100000.0))
  }

  /** Records after the sixth never show in the trend. */
  lemma TrendKeepsFirstSix(ps: seq<PC.Property>, more: seq<PC.Property>)
    requires |ps| >= 6
    ensures TrendData(ps + more) == TrendData(ps)
  {
    assert forall i :: 0 <= i < 6 ==> (ps + more)[i] == ps[i];
  }

  /** The sum of the funded fractions `raised / target`; undefined (an infinity or a NaN
      in the page) as soon as one target is zero. */
  function FundedFractions(ps: seq<PC.Property>): (r: Option<real>)
    ensures r.None? <==> exists i :: 0 <= i < |ps| && ps[i].targetAmount == 0.0
  {
    if ps == [] then Some(0.0)
    else if ps[0].targetAmount == 0.0 then None
    else match FundedFractions(ps[1..])
         case None => None
         case Some(rest) => Some(ps[0].raisedAmount / ps[0].targetAmount + rest)
  }

  /** `avgOccupancy`: 0 for an empty catalog, else the mean funded fraction as a
      percentage; undefined when some target is zero. */
  function AvgOccupancy(ps: seq<PC.Property>): (r: Option<real>)
    ensures ps == [] ==> r == Some(0.0)
    ensures ps != [] ==> (r.None? <==> exists i :: 0 <= i < |ps| && ps[i].targetAmount == 0.0)
    ensures ps != [] && r.Some? ==> r.value * (|ps| as real) == FundedFractions(ps).value * 100.0
  {
    if |ps| == 0 then Some(0.0)
    else match FundedFractions(ps)
         case None => None
         case Some(total) => Some(total / (|ps| as real) * 100.0)
  }

  /** Each record funded between nothing and its target bounds a fraction in [0, 1]. */
  predicate WithinTarget(p: PC.Property) {
    p.targetAmount > 0.0 && 0.0 <= p.raisedAmount <= p.targetAmount
  }

  lemma {:induction false} FundedFractionsBounds(ps: seq<PC.Property>)
    requires forall i :: 0 <= i < |ps| ==> WithinTarget(ps[i])
    ensures FundedFractions(ps).Some?
    ensures 0.0 <= FundedFractions(ps).value <= |ps| as real
  {
    if ps != [] {
      assert WithinTarget(ps[0]);
      assert forall i :: 0 <= i < |ps[1..]| ==> ps[1..][i] == ps[i + 1];
      FundedFractionsBounds(ps[1..]);
      var f := ps[0].raisedAmount / ps[0].targetAmount;
      assert f * ps[0].targetAmount == ps[0].raisedAmount;
      assert 0.0 <= f <= 1.0;
    }
  }

  /** With every record funded within its target the occupancy is a percentage. */
  lemma OccupancyIsPercentage(ps: seq<PC.Property>)
    requires forall i :: 0 <= i < |ps| ==> WithinTarget(ps[i])
    ensures AvgOccupancy(ps).Some?
    ensures 0.0 <= AvgOccupancy(ps).value <= 100.0
  {
    if ps != [] {
      FundedFractionsBounds(ps);
      var total := FundedFractions(ps).value;
      var n := |ps| as real;
      assert (total / n) * n == total;
      assert 0.0 <= total / n <= 1.0;
    }
  }
}
