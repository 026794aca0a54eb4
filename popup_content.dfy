/**
 * What a map popup shows of a record: name, mission, website and e-mail
 * as stored, and a location line joined from the headquarters address,
 * city, state or province and country, or a default text when all are empty.
 */
module PopupContent {
  import opened Strings
  import opened Types
  import opened Parts
  import opened Lists

  datatype ParsedOrganizationPopup = ParsedOrganizationPopup(
    name: string,
    mission: string,
    website: string,
    email: string,
    location: string)

  /** The popup's location parts, in order. */
  function LocationParts(org: Organization): seq<string> {
    [org.headquartersAddress, org.city, org.stateProvince, org.country]
  }

  /** `filter(Boolean)` on strings: only the empty string is dropped. */
  predicate NonEmpty(part: string) {
    part != ""
  }

  /**
   * `parseOrganizationForPopup`. The `??` defaults of the name, mission,
   * website and e-mail never apply, since a record's fields are strings,
   * never null; the location default is a parameter.
   */
  function ParseOrganizationForPopup(org: Organization, defaultLocation: string): ParsedOrganizationPopup {
    var locationParts := Filter(LocationParts(org), NonEmpty);
    var location := if |locationParts| != 0 then Join(locationParts, Separator) else defaultLocation;
    ParsedOrganizationPopup(org.organizationName, org.mission, org.website, org.contactEmail, location)
  }

  /** The four plain fields are the record's own. */
  lemma PopupCopiesFields(org: Organization, defaultLocation: string)
    ensures var popup := ParseOrganizationForPopup(org, defaultLocation);
      popup.name == org.organizationName && popup.mission == org.mission
      && popup.website == org.website && popup.email == org.contactEmail
  {
  }

  /**
   * The location is the default when all four parts are empty;
   * otherwise it is the non-empty parts joined by ", ", itself non-empty,
   * and it contains each of them.
   */
  lemma PopupLocation(org: Organization, defaultLocation: string)
    ensures var location := ParseOrganizationForPopup(org, defaultLocation).location;
      var parts := LocationParts(org);
      && ((forall i :: 0 <= i < |parts| ==> parts[i] == "") ==> location == defaultLocation)
      && (!(forall i :: 0 <= i < |parts| ==> parts[i] == "") ==>
            location == JoinKept(parts, NonEmpty) && location != ""
            && forall i :: 0 <= i < |parts| && parts[i] != "" ==> Contains(location, parts[i]))
  {
    var parts := LocationParts(org);
    var kept := Filter(parts, NonEmpty);
    JoinKeptEmptyIff(parts, NonEmpty);
    if kept != [] {
      forall i | 0 <= i < |parts| && parts[i] != "" ensures Contains(JoinKept(parts, NonEmpty), parts[i]) {
        JoinKeptContains(parts, NonEmpty, i);
      }
    }
  }

  /** A whitespace-only part is kept on the location line: a city of " " alone yields the location " ". */
  lemma PopupKeepsBlankPart(org: Organization, defaultLocation: string)
    requires org.headquartersAddress == "" && org.stateProvince == "" && org.country == ""
    requires org.city != ""
    ensures ParseOrganizationForPopup(org, defaultLocation).location == org.city
  {
    var parts := LocationParts(org);
    assert Filter(parts, NonEmpty) == [org.city] by {
      assert parts == [org.headquartersAddress] + [org.city] + [org.stateProvince, org.country];
      FilterAppend([org.headquartersAddress] + [org.city], [org.stateProvince, org.country], NonEmpty);
      FilterAppend([org.headquartersAddress], [org.city], NonEmpty);
    }
  }
}
