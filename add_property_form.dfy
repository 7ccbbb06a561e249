/** The admin's add-property form: the text the inputs hold, edited one field at a
    time, and the catalog record built from it on submit. */
module AddPropertyForm {
  import opened Common
  import Text
  import PC = PropertyCatalog

  /** The picture used when the image input is left empty. */
  const PlaceholderImage := "https://images.unsplash.com/photo-1560518883-ce09059eeffa?w=800"

  /** The values the type select offers. */
  const PropertyTypes: seq<string> := ["apartment", "villa", "commercial", "residential"]

  /** What the inputs hold: text, exactly as typed, plus the chosen status. */
  datatype FormData = FormData(
    title: string,
    location: string,
    propertyType: string,
    price: string,
    targetAmount: string,
    raisedAmount: string,
    investors: string,
    expectedReturn: string,
    tenure: string,
    image: string,
    description: string,
    amenities: string,
    status: PC.PropertyStatus)

  /** The fields that have a text input. `raisedAmount` and `investors` have none. */
  datatype TextField =
    Title | Location | Price | TargetAmount | ExpectedReturn | Tenure | Image | Description | Amenities

  /** The form as it first shows. */
  const InitialForm := FormData("", "", "apartment", "", "", "0", "0", "", "", "", "", "", PC.Active)

  /** An input's `onChange`: that field takes the typed text. */
  function WithText(f: FormData, field: TextField, value: string): (g: FormData)
    ensures g.raisedAmount == f.raisedAmount && g.investors == f.investors
    ensures g.propertyType == f.propertyType && g.status == f.status
  {
    match field
    case Title => f.(title := value)
    case Location => f.(location := value)
    case Price => f.(price := value)
    case TargetAmount => f.(targetAmount := value)
    case ExpectedReturn => f.(expectedReturn := value)
    case Tenure => f.(tenure := value)
    case Image => f.(image := value)
    case Description => f.(description := value)
    case Amenities => f.(amenities := value)
  }

  /** The image input, or the placeholder when it is empty. */
  function ImageOrPlaceholder(image: string): (r: string)
    ensures image == "" ==> r == PlaceholderImage
    ensures image != "" ==> r == image
  {
    if image == "" then PlaceholderImage else image
  }

  /** The comma-separated amenities, each piece trimmed, in order. */
  function AmenityList(text: string): (r: seq<string>)
    ensures |r| == |Text.Split(text, ',')| == Text.CountChar(text, ',') + 1
    ensures forall i :: 0 <= i < |r| ==> r[i] == Text.Trim(Text.Split(text, ',')[i])
  {
    Text.SplitLength(text, ',');
    var pieces := Text.Split(text, ',');
    seq(|pieces|, i requires 0 <= i < |pieces| => Text.Trim(pieces[i]))
  }

  /** An empty input gives one empty amenity, not none. */
  lemma EmptyAmenities()
    ensures AmenityList("") == [""]
  {
    assert Text.Trim("") == "" by {
      assert Text.LeadingSpace("") == 0;
    }
  }

  /** Every amenity is free of commas and of surrounding white space. */
  lemma AmenitiesClean(text: string)
    ensures forall i :: 0 <= i < |AmenityList(text)| ==>
              ',' !in AmenityList(text)[i] && Text.Trim(AmenityList(text)[i]) == AmenityList(text)[i]
  {
    var r := AmenityList(text);
    var pieces := Text.Split(text, ',');
    Text.SplitPiecesFree(text, ',');
    forall i | 0 <= i < |r|
      ensures ',' !in r[i] && Text.Trim(r[i]) == r[i]
    {
      Text.TrimIdempotent(pieces[i]);
      Text.TrimDropsOnly(pieces[i], ',');
    }
  }

  /** When no piece has white space around it, the amenities join back to the input. */
  lemma AmenitiesRoundTrip(text: string)
    requires forall i :: 0 <= i < |Text.Split(text, ',')| ==>
               Text.Trim(Text.Split(text, ',')[i]) == Text.Split(text, ',')[i]
    ensures Text.Join(AmenityList(text), ',') == text
  {
    assert AmenityList(text) == Text.Split(text, ',');
    Text.JoinSplit(text, ',');
  }

  /** The record `handleSubmit` hands to `addProperty`; `parseFloat` and `parseInt` are
      the number readers, taken as given. */
  function BuildDraft(f: FormData, parseFloat: string -> real, parseInt: string -> int): (d: PC.PropertyDraft)
    ensures d.title == f.title && d.location == f.location && d.propertyType == f.propertyType
    ensures d.tenure == f.tenure && d.description == f.description && d.status == f.status
    ensures d.price == parseFloat(f.price) && d.targetAmount == parseFloat(f.targetAmount)
    ensures d.raisedAmount == parseFloat(f.raisedAmount) && d.investors == parseInt(f.investors)
    ensures d.expectedReturn == parseFloat(f.expectedReturn)
    ensures d.image == ImageOrPlaceholder(f.image)
    ensures d.amenities == AmenityList(f.amenities)
  {
    PC.PropertyDraft(f.title, f.location, f.propertyType, parseFloat(f.price),
                     parseFloat(f.targetAmount), parseFloat(f.raisedAmount), parseInt(f.investors),
                     parseFloat(f.expectedReturn), f.tenure, ImageOrPlaceholder(f.image),
                     f.description, AmenityList(f.amenities), f.status)
  }

  class PropertyForm {
    var data: FormData

    /** Nothing can change the two numeric fields without an input, and the type is
        always one the select offers. */
    ghost predicate Valid()
      reads this
    {
      data.raisedAmount == "0" && data.investors == "0" && data.propertyType in PropertyTypes
    }

    constructor ()
      ensures Valid() && data == InitialForm
    {
      data := InitialForm;
    }

    method EditText(field: TextField, value: string)
      requires Valid()
      modifies this
      ensures Valid() && data == WithText(old(data), field, value)
    {
      data := WithText(data, field, value);
    }

    /** The type select's `onValueChange`. */
    method ChooseType(t: string)
      requires Valid() && t in PropertyTypes
      modifies this
      ensures Valid() && data == old(data).(propertyType := t)
    {
      data := data.(propertyType := t);
    }

    /** The status select's `onValueChange`. */
    method ChooseStatus(s: PC.PropertyStatus)
      requires Valid()
      modifies this
      ensures Valid() && data == old(data).(status := s)
    {
      data := data.(status := s);
    }

    /** `handleSubmit`: add the built record to the catalog. The form itself is left as
        it is. */
    method Submit(store: PC.PropertyStore, parseFloat: string -> real, parseInt: string -> int,
                  nowMs: nat, nowIso: string)
      requires Valid() && store.Valid()
      modifies store
      ensures store.Valid()
      ensures store.properties == PC.Added(old(store.properties), BuildDraft(data, parseFloat, parseInt), nowMs, nowIso)
      ensures store.properties[0].raisedAmount == parseFloat("0")
      ensures store.properties[0].investors == parseInt("0")
    {
      store.AddProperty(BuildDraft(data, parseFloat, parseInt), nowMs, nowIso);
    }
  }
}
