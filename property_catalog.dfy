/** The property catalog store: the list of investable properties, its CRUD
    operations, the statistics aggregate and its persistence under one storage key. */
module PropertyCatalog {
  import opened Common
  import Text

  /** The storage key that holds the serialized catalog. */
  const StorageKey := "truassets_properties"

  datatype PropertyStatus = Active | Funded | Upcoming

  /** The string each status has in the serialized record. */
  function StatusName(s: PropertyStatus): string {
    match s
    case Active => "active"
    case Funded => "funded"
    case Upcoming => "upcoming"
  }

  datatype Property = Property(
    id: string,
    title: string,
    location: string,
    propertyType: string,
    price: real,
    targetAmount: real,
    raisedAmount: real,
    investors: int,
    expectedReturn: real,
    tenure: string,
    image: string,
    description: string,
    amenities: seq<string>,
    status: PropertyStatus,
    createdAt: string)

  /** What a caller hands to `addProperty`: a property without `id` and `createdAt`. */
  datatype PropertyDraft = PropertyDraft(
    title: string,
    location: string,
    propertyType: string,
    price: real,
    targetAmount: real,
    raisedAmount: real,
    investors: int,
    expectedReturn: real,
    tenure: string,
    image: string,
    description: string,
    amenities: seq<string>,
    status: PropertyStatus)

  /** A `Partial<Property>`: every field the caller names, and nothing for the others. */
  datatype PropertyPatch = PropertyPatch(
    id: Option<string>,
    title: Option<string>,
    location: Option<string>,
    propertyType: Option<string>,
    price: Option<real>,
    targetAmount: Option<real>,
    raisedAmount: Option<real>,
    investors: Option<int>,
    expectedReturn: Option<real>,
    tenure: Option<string>,
    image: Option<string>,
    description: Option<string>,
    amenities: Option<seq<string>>,
    status: Option<PropertyStatus>,
    createdAt: Option<string>)

  const NoChange := PropertyPatch(None, None, None, None, None, None, None, None,
                                  None, None, None, None, None, None, None)

  // ---------------------------------------------------------------- creation

  /** The id a property created at clock value `nowMs` receives. */
  function PropertyId(nowMs: nat): string {
    "prop-" + Text.Decimal(nowMs)
  }

  /** Ids are unique exactly when the clock values they were made from differ. */
  lemma PropertyIdInjective(a: nat, b: nat)
    ensures PropertyId(a) == PropertyId(b) <==> a == b
  {
    if PropertyId(a) == PropertyId(b) {
      assert PropertyId(a)[5..] == Text.Decimal(a);
      assert PropertyId(b)[5..] == Text.Decimal(b);
      Text.DecimalInjective(a, b);
    }
  }

  /** The caller's part of a property. */
  function DraftOf(p: Property): PropertyDraft {
    PropertyDraft(p.title, p.location, p.propertyType, p.price, p.targetAmount, p.raisedAmount,
                  p.investors, p.expectedReturn, p.tenure, p.image, p.description,
                  p.amenities, p.status)
  }

  /** The record `addProperty` builds: the draft, an id from the clock and a timestamp. */
  function Stamped(d: PropertyDraft, nowMs: nat, nowIso: string): (p: Property)
    ensures DraftOf(p) == d
    ensures p.id == PropertyId(nowMs) && p.createdAt == nowIso
  {
    Property(PropertyId(nowMs), d.title, d.location, d.propertyType, d.price, d.targetAmount,
             d.raisedAmount, d.investors, d.expectedReturn, d.tenure, d.image,
             d.description, d.amenities, d.status, nowIso)
  }

  /** `addProperty`: the new record goes in front of the old list. */
  function Added(ps: seq<Property>, d: PropertyDraft, nowMs: nat, nowIso: string): (r: seq<Property>)
    ensures |r| == |ps| + 1
    ensures r[0].id == PropertyId(nowMs) && r[0].createdAt == nowIso && DraftOf(r[0]) == d
    ensures r[1..] == ps
  {
    [Stamped(d, nowMs, nowIso)] + ps
  }

  function Ids(ps: seq<Property>): seq<string> {
    seq(|ps|, i requires 0 <= i < |ps| => ps[i].id)
  }

  /** An add keeps the ids distinct exactly when the new id is not already taken. */
  lemma AddedDistinct(ps: seq<Property>, d: PropertyDraft, nowMs: nat, nowIso: string)
    ensures Distinct(Ids(Added(ps, d, nowMs, nowIso))) <==>
            Distinct(Ids(ps)) && PropertyId(nowMs) !in Ids(ps)
  {
    var a, b := Ids(Added(ps, d, nowMs, nowIso)), Ids(ps);
    assert a == [PropertyId(nowMs)] + b;
    if Distinct(a) {
      forall i, j | 0 <= i < j < |b| ensures b[i] != b[j] {
        assert a[i + 1] != a[j + 1];
      }
      forall k | 0 <= k < |b| ensures b[k] != PropertyId(nowMs) {
        assert a[0] != a[k + 1];
      }
    }
    if Distinct(b) && PropertyId(nowMs) !in b {
      forall i, j | 0 <= i < j < |a| ensures a[i] != a[j] {
        if i == 0 {
          assert a[j] == b[j - 1];
        } else {
          assert a[i] == b[i - 1] && a[j] == b[j - 1];
        }
      }
    }
  }

  // ---------------------------------------------------------------- update

  /** The shallow merge `{ ...p, ...patch }`: the patch's fields win. */
  function Merge(p: Property, patch: PropertyPatch): (r: Property)
    ensures patch == NoChange ==> r == p
    ensures patch.id.None? ==> r.id == p.id
  {
    Property(
      patch.id.GetOr(p.id),
      patch.title.GetOr(p.title),
      patch.location.GetOr(p.location),
      patch.propertyType.GetOr(p.propertyType),
      patch.price.GetOr(p.price),
      patch.targetAmount.GetOr(p.targetAmount),
      patch.raisedAmount.GetOr(p.raisedAmount),
      patch.investors.GetOr(p.investors),
      patch.expectedReturn.GetOr(p.expectedReturn),
      patch.tenure.GetOr(p.tenure),
      patch.image.GetOr(p.image),
      patch.description.GetOr(p.description),
      patch.amenities.GetOr(p.amenities),
      patch.status.GetOr(p.status),
      patch.createdAt.GetOr(p.createdAt))
  }

  /** Merging the same patch twice is merging it once. */
  lemma MergeLaws(p: Property, patch: PropertyPatch)
    ensures Merge(Merge(p, patch), patch) == Merge(p, patch)
  {
  }

  /** `updateProperty`: every record whose id matches is merged with the patch, in place. */
  function Updated(ps: seq<Property>, id: string, patch: PropertyPatch): (r: seq<Property>)
    ensures |r| == |ps|
    ensures forall i :: 0 <= i < |ps| && ps[i].id != id ==> r[i] == ps[i]
    ensures forall i :: 0 <= i < |ps| && ps[i].id == id ==> r[i] == Merge(ps[i], patch)
  {
    if ps == [] then []
    else [if ps[0].id == id then Merge(ps[0], patch) else ps[0]] + Updated(ps[1..], id, patch)
  }

  /** Updating an id no record carries leaves the list as it was. */
  lemma UpdatedMissing(ps: seq<Property>, id: string, patch: PropertyPatch)
    requires id !in Ids(ps)
    ensures Updated(ps, id, patch) == ps
  {
    assert forall i :: 0 <= i < |ps| ==> Ids(ps)[i] == ps[i].id;
  }

  /** Repeating an update is harmless, even a patch that changes the id itself. */
  lemma UpdatedIdempotent(ps: seq<Property>, id: string, patch: PropertyPatch)
    ensures Updated(Updated(ps, id, patch), id, patch) == Updated(ps, id, patch)
  {
    var once := Updated(ps, id, patch);
    var twice := Updated(once, id, patch);
    forall i | 0 <= i < |ps|
      ensures twice[i] == once[i]
    {
      MergeLaws(ps[i], patch);
    }
  }

  // ---------------------------------------------------------------- delete

  /** The test "carries `id`", as a value. */
  function HasId(id: string): Property -> bool {
    (p: Property) => p.id == id
  }

  /** `deleteProperty`: every record with the id goes; the others stay, in order. */
  function Deleted(ps: seq<Property>, id: string): (r: seq<Property>)
    ensures forall p :: p in r <==> p in ps && p.id != id
    ensures IsSubsequence(r, ps)
    ensures |r| == |ps| - Count(HasId(id), ps)
  {
    if ps == [] then []
    else if ps[0].id == id then Deleted(ps[1..], id)
    else [ps[0]] + Deleted(ps[1..], id)
  }

  // ---------------------------------------------------------------- statistics

  function SumInvestors(ps: seq<Property>): int {
    if ps == [] then 0 else ps[0].investors + SumInvestors(ps[1..])
  }

  function SumRaised(ps: seq<Property>): real {
    if ps == [] then 0.0 else ps[0].raisedAmount + SumRaised(ps[1..])
  }

  /** The raised amounts of a list extended at the back, which is how a left fold adds. */
  lemma {:induction false} SumRaisedSnoc(ps: seq<Property>, p: Property)
    ensures SumRaised(ps + [p]) == SumRaised(ps) + p.raisedAmount
  {
    if ps == [] {
      assert ps + [p] == [p] && [p][1..] == [];
    } else {
      assert (ps + [p])[0] == ps[0] && (ps + [p])[1..] == ps[1..] + [p];
      SumRaisedSnoc(ps[1..], p);
    }
  }

  function SumReturns(ps: seq<Property>): real {
    if ps == [] then 0.0 else ps[0].expectedReturn + SumReturns(ps[1..])
  }

  datatype Statistics = Statistics(
    totalProperties: nat,
    activeInvestors: int,
    totalInvestment: real,
    avgReturns: real)

  /** `getStatistics`: the count, the sums of investors and of raised amounts, and the
      mean expected return, which is 0 rather than a division by zero when empty. */
  function GetStatistics(ps: seq<Property>): (st: Statistics)
    ensures st.totalProperties == |ps|
    ensures st.activeInvestors == SumInvestors(ps)
    ensures st.totalInvestment == SumRaised(ps)
    ensures ps == [] ==> st.avgReturns == 0.0
    ensures ps != [] ==> st.avgReturns * (|ps| as real) == SumReturns(ps)
  {
    Statistics(|ps|, SumInvestors(ps), SumRaised(ps),
               if |ps| > 0 then SumReturns(ps) / (|ps| as real) else 0.0)
  }

  /** An add raises each total by the new record's share. */
  lemma StatisticsAfterAdd(ps: seq<Property>, d: PropertyDraft, nowMs: nat, nowIso: string)
    ensures GetStatistics(Added(ps, d, nowMs, nowIso)).totalProperties == |ps| + 1
    ensures GetStatistics(Added(ps, d, nowMs, nowIso)).activeInvestors == SumInvestors(ps) + d.investors
    ensures GetStatistics(Added(ps, d, nowMs, nowIso)).totalInvestment == SumRaised(ps) + d.raisedAmount
  {
    var r := Added(ps, d, nowMs, nowIso);
    assert r[1..] == ps;
  }

  /** Two catalogued properties raising 1,000,000 and 3,000,000 with returns of 10% and
      14% give a total investment of 4,000,000 and a mean return of 12%. */
  lemma StatisticsExample(a: Property, b: Property)
    requires a.raisedAmount == 1000000.0 && a.expectedReturn == 10.0
    requires b.raisedAmount == 3000000.0 && b.expectedReturn == 14.0
    ensures GetStatistics([a, b]).totalInvestment == 4000000.0
    ensures GetStatistics([a, b]).avgReturns == 12.0
  {
    assert [a, b][1..] == [b] && [b][1..] == [];
    assert SumRaised([]) == 0.0 && SumReturns([]) == 0.0;
    assert SumRaised([b]) == b.raisedAmount + SumRaised([]);
    assert SumReturns([b]) == b.expectedReturn + SumReturns([]);
    assert SumRaised([a, b]) == a.raisedAmount + SumRaised([b]);
    assert SumReturns([a, b]) == a.expectedReturn + SumReturns([b]);
  }

  // ---------------------------------------------------------------- persistence

  /** The key after the mount-time load: an unparseable value is removed. */
  function AfterLoad(initial: Slot<seq<Property>>): Slot<seq<Property>> {
    match initial
    case Unreadable => Absent
    case _ => initial
  }

  /** Deleting the last record does not reach the key: the next start brings it back. */
  lemma EmptiedCatalogResurrects(p: Property)
    ensures Deleted([p], p.id) == []
    ensures Restored(Persisted(Deleted([p], p.id), Persisted([p], Absent))) == [p]
  {
    assert [p][1..] == [];
  }

  class PropertyStore {
    /** The in-memory catalog, newest first. */
    var properties: seq<Property>
    /** The contents of the catalog's storage key. */
    var stored: Slot<seq<Property>>

    /** A non-empty catalog is always saved: reloading the key reproduces it exactly. */
    ghost predicate Valid()
      reads this
    {
      properties != [] ==> stored == Holds(properties)
    }

    /** Mounting the provider: start empty, then take the stored list if it parses,
        or remove the key if it does not. */
    constructor Load(initial: Slot<seq<Property>>)
      ensures Valid()
      ensures properties == Restored(initial)
      ensures stored == AfterLoad(initial)
    {
      match initial {
        case Holds(ps) =>
          properties := ps;
          stored := Persisted(ps, initial);
        case Unreadable =>
          properties := [];
          stored := Absent;
        case Absent =>
          properties := [];
          stored := Absent;
      }
    }

    method AddProperty(d: PropertyDraft, nowMs: nat, nowIso: string)
      requires Valid()
      modifies this
      ensures Valid()
      ensures properties == Added(old(properties), d, nowMs, nowIso)
      ensures stored == Holds(properties)
    {
      properties := [Stamped(d, nowMs, nowIso)] + properties;
      stored := Persisted(properties, stored);
    }

    method UpdateProperty(id: string, patch: PropertyPatch)
      requires Valid()
      modifies this
      ensures Valid()
      ensures properties == Updated(old(properties), id, patch)
      ensures stored == Persisted(properties, old(stored))
    {
      properties := Updated(properties, id, patch);
      stored := Persisted(properties, stored);
    }

    method DeleteProperty(id: string)
      requires Valid()
      modifies this
      ensures Valid()
      ensures properties == Deleted(old(properties), id)
      ensures stored == Persisted(properties, old(stored))
    {
      properties := Deleted(properties, id);
      stored := Persisted(properties, stored);
    }
  }
}
