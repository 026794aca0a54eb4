/**
 * What a directory card shows of a record: a one-line address built from
 * city, state or province and country, and four presence flags.
 */
module OrganizationCard {
  import opened Strings
  import opened Types
  import opened Parts

  datatype ParsedOrganizationCard = ParsedOrganizationCard(
    address: string,
    hasMission: bool,
    hasAddress: bool,
    hasWebsite: bool,
    hasEmail: bool)

  /** The card's address parts, in order. */
  function CardParts(org: Organization): seq<string> {
    [org.city, org.stateProvince, org.country]
  }

  /** The `filter` callback `part?.trim()`: the part is kept when its trimmed form is non-empty. */
  predicate HasText(part: string) {
    Trim(part) != ""
  }

  /** `parseOrganizationForCard`; the flags are `!!` of the raw strings, so whitespace counts as present. */
  function ParseOrganizationForCard(org: Organization): ParsedOrganizationCard {
    var address := JoinKept(CardParts(org), HasText);
    ParsedOrganizationCard(
      address,
      org.mission != "",
      address != "",
      org.website != "",
      org.contactEmail != "")
  }

  /** The address is empty, and `hasAddress` false, exactly when city, state or province and country are all blank. */
  lemma CardAddressEmptyIff(org: Organization)
    ensures var card := ParseOrganizationForCard(org);
      && (card.address == "" <==> IsBlank(org.city) && IsBlank(org.stateProvince) && IsBlank(org.country))
      && (card.hasAddress <==> card.address != "")
  {
    JoinKeptThreeEmptyIff(org.city, org.stateProvince, org.country, HasText);
  }

  /** Each non-blank part appears, untrimmed, in the address. */
  lemma CardAddressParts(org: Organization)
    ensures var address := ParseOrganizationForCard(org).address;
      && (!IsBlank(org.city) ==> Contains(address, org.city))
      && (!IsBlank(org.stateProvince) ==> Contains(address, org.stateProvince))
      && (!IsBlank(org.country) ==> Contains(address, org.country))
  {
    var parts := CardParts(org);
    if !IsBlank(org.city) { JoinKeptContains(parts, HasText, 0); }
    if !IsBlank(org.stateProvince) { JoinKeptContains(parts, HasText, 1); }
    if !IsBlank(org.country) { JoinKeptContains(parts, HasText, 2); }
  }

  /** With all three parts present, the address lists them in order, separated by ", ". */
  lemma CardAddressAllPresent(org: Organization)
    requires !IsBlank(org.city) && !IsBlank(org.stateProvince) && !IsBlank(org.country)
    ensures ParseOrganizationForCard(org).address == org.city + ", " + org.stateProvince + ", " + org.country
  {
    JoinKeptThree(org.city, org.stateProvince, org.country, HasText);
  }

  /** The three other flags are plain non-emptiness: a whitespace-only mission, website or e-mail still counts. */
  lemma CardFlags(org: Organization)
    ensures var card := ParseOrganizationForCard(org);
      && (card.hasMission <==> |org.mission| > 0)
      && (card.hasWebsite <==> |org.website| > 0)
      && (card.hasEmail <==> |org.contactEmail| > 0)
  {
  }

  /** Street, postal code, headquarters address and coordinates do not affect the card. */
  lemma CardIgnoresOtherFields(org: Organization, street: string, zip: string, hq: string, lat: real, lng: real)
    ensures ParseOrganizationForCard(org.(street := street, zipPostalCode := zip, headquartersAddress := hq,
      siteLatitude := lat, siteLongitude := lng)) == ParseOrganizationForCard(org)
  {
  }
}
