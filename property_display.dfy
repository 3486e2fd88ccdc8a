/**
 * The two helpers the property table and the assigned-property list share,
 * written out identically in both: `getAddress` and `getStatusBadge`.
 */
module PropertyDisplay {
  import opened Wrappers
  import opened Js
  import opened Text

  /** The address columns of a listed property; SQL NULL is `None`. */
  datatype Address = Address(
    streetNumber: Option<string>,
    streetName: Option<string>,
    city: Option<string>,
    state: Option<string>,
    zip: Option<string>)

  const NoAddress := "No address provided"

  /** A nullable column as `filter(Boolean)` sees it: null and "" are both dropped. */
  function ColumnText(v: Option<string>): (s: string)
    ensures s != "" <==> Truthy(v)
  {
    if v.Some? then v.value else ""
  }

  /** The street number and name, joined by one space, skipping a missing one. */
  function StreetAddress(a: Address): (s: string)
    ensures Truthy(a.streetNumber) && Truthy(a.streetName) ==> s == a.streetNumber.value + " " + a.streetName.value
    ensures Truthy(a.streetNumber) && !Truthy(a.streetName) ==> s == a.streetNumber.value
    ensures !Truthy(a.streetNumber) && Truthy(a.streetName) ==> s == a.streetName.value
    ensures s == "" <==> !Truthy(a.streetNumber) && !Truthy(a.streetName)
  {
    var parts := (if Truthy(a.streetNumber) then [a.streetNumber.value] else [])
               + (if Truthy(a.streetName) then [a.streetName.value] else []);
    if |parts| == 2 then JoinPair(parts[0], parts[1], " "); Join(parts, " ") else Join(parts, " ")
  }

  /** `[city, state, zip].filter(Boolean).join(", ")`. */
  function CityStateZip(a: Address): (s: string)
    ensures s == "" <==> !Truthy(a.city) && !Truthy(a.state) && !Truthy(a.zip)
  {
    var xs := [ColumnText(a.city), ColumnText(a.state), ColumnText(a.zip)];
    JoinNonEmptyIsEmpty(xs, ", ");
    assert xs[0] == ColumnText(a.city) && xs[1] == ColumnText(a.state) && xs[2] == ColumnText(a.zip);
    Join(NonEmpty(xs), ", ")
  }

  /** The address before the fallback: the non-empty ones of the two parts, joined by ", ". */
  function Composed(a: Address): string {
    Join(NonEmpty([StreetAddress(a), CityStateZip(a)]), ", ")
  }

  /**
   * `getAddress`: the composed address, or "No address provided" when it
   * comes out empty, which is when all five fields are blank.
   */
  function GetAddress(a: Address): (s: string)
    ensures s != ""
    ensures AllBlank(a) ==> s == NoAddress
    ensures !AllBlank(a) ==> s == Composed(a)
  {
    var xs := [StreetAddress(a), CityStateZip(a)];
    JoinNonEmptyIsEmpty(xs, ", ");
    var s := Composed(a);
    if s != "" then s else NoAddress
  }

  predicate AllBlank(a: Address) {
    !Truthy(a.streetNumber) && !Truthy(a.streetName) && !Truthy(a.city) && !Truthy(a.state) && !Truthy(a.zip)
  }

  /** City, state and zip contribute nothing exactly when all three are blank. */
  lemma CityStateZipEmpty(a: Address)
    ensures CityStateZip(a) == "" <==> !Truthy(a.city) && !Truthy(a.state) && !Truthy(a.zip)
  {
    var xs := [ColumnText(a.city), ColumnText(a.state), ColumnText(a.zip)];
    JoinNonEmptyIsEmpty(xs, ", ");
    assert xs[0] == ColumnText(a.city) && xs[1] == ColumnText(a.state) && xs[2] == ColumnText(a.zip);
  }

  /**
   * The fallback is shown exactly when all five address fields are blank;
   * otherwise the address is the non-empty composition.
   */
  lemma FallbackIffBlank(a: Address)
    ensures Composed(a) == "" <==> AllBlank(a)
    ensures AllBlank(a) ==> GetAddress(a) == NoAddress
    ensures !AllBlank(a) ==> GetAddress(a) == Composed(a) != ""
  {
    var xs := [StreetAddress(a), CityStateZip(a)];
    JoinNonEmptyIsEmpty(xs, ", ");
    CityStateZipEmpty(a);
    assert xs[0] == StreetAddress(a) && xs[1] == CityStateZip(a);
  }

  /** With only a street, the address is the street; with only a city, the city. */
  lemma SinglePartAddresses(a: Address)
    ensures !Truthy(a.city) && !Truthy(a.state) && !Truthy(a.zip) ==> Composed(a) == StreetAddress(a)
    ensures !Truthy(a.streetNumber) && !Truthy(a.streetName) ==> Composed(a) == CityStateZip(a)
  {
    CityStateZipEmpty(a);
    NonEmptyPair(StreetAddress(a), CityStateZip(a));
  }

  /** The known property statuses, lower case, with their labels. */
  const StatusLabels := map["available" := "Available", "financing" := "Financing",
                            "loan in default" := "Loan in Default", "sold" := "Sold"]

  /** `getStatusBadge`: the canonical label for a known status in any case, else the status as written. */
  function StatusLabel(status: string): (shown: string)
    ensures Lower(status) == "available" ==> shown == "Available"
    ensures Lower(status) == "financing" ==> shown == "Financing"
    ensures Lower(status) == "loan in default" ==> shown == "Loan in Default"
    ensures Lower(status) == "sold" ==> shown == "Sold"
    ensures Lower(status) !in {"available", "financing", "loan in default", "sold"} ==> shown == status
  {
    LabelOf(StatusLabels, status)
  }

  /** Case does not matter for a known status: `SOLD`, `Sold` and `sold` get one label. */
  lemma StatusLabelIgnoresCase(status: string)
    requires Lower(status) in {"available", "financing", "loan in default", "sold"}
    ensures StatusLabel(Lower(status)) == StatusLabel(status)
  {
    LabelIgnoresCase(StatusLabels, status);
  }

  /** An unknown status is shown verbatim, keeping its own case: `SOLD OUT` stays `SOLD OUT`. */
  lemma UnknownStatusVerbatim(status: string)
    requires Lower(status) !in {"available", "financing", "loan in default", "sold"}
    ensures StatusLabel(status) == status
  {
  }
}
