/**
 * The two helpers of the organization popup: the link target built from
 * a website, and the postal address line.
 */
module OrganizationPopup {
  import opened Strings
  import opened Types
  import opened Lists
  import opened Parts
  import opened OrganizationCard

  /** `formatWebsite`: empty stays empty, an address starting with "http" is kept, anything else gets "https://". */
  function FormatWebsite(website: string): (url: string)
    ensures website == "" <==> url == ""
    ensures url == "" || StartsWith(url, "http")
    ensures StartsWith(website, "http") ==> url == website
    ensures website != "" && !StartsWith(website, "http") ==> url == "https://" + website
  {
    if website == "" then ""
    else if StartsWith(website, "http") then website
    else "https://" + website
  }

  /** Formatting an already formatted website changes nothing. */
  lemma FormatWebsiteIdempotent(website: string)
    ensures FormatWebsite(FormatWebsite(website)) == FormatWebsite(website)
  {
  }

  /** The website can be read back from the link: it is the link itself, or the link without a leading "https://". */
  lemma FormatWebsiteRecoverable(website: string)
    ensures var url := FormatWebsite(website);
      website == (if StartsWith(website, "http") || website == "" then url else url[|"https://"|..])
  {
  }

  /** The popup's address parts, in order. */
  function AddressParts(org: Organization): seq<string> {
    [org.street, org.city, org.stateProvince, org.country, org.zipPostalCode]
  }

  /** The `filter` callback `part && part.trim() !== ''`. */
  predicate Present(part: string) {
    part != "" && Trim(part) != ""
  }

  /** `formatAddress`: the parts that are not blank, joined by ", ". */
  function FormatAddress(org: Organization): string {
    JoinKept(AddressParts(org), Present)
  }

  /** The emptiness test is redundant: a part is kept exactly when it is not blank after trimming. */
  lemma PresentIffNotBlank(part: string)
    ensures Present(part) <==> !IsBlank(part)
  {
  }

  /** The address is empty exactly when all five parts are blank, and contains each part that is not. */
  lemma FormatAddressSpec(org: Organization)
    ensures var parts := AddressParts(org);
      && (FormatAddress(org) == "" <==> forall i :: 0 <= i < |parts| ==> IsBlank(parts[i]))
      && forall i :: 0 <= i < |parts| && !IsBlank(parts[i]) ==> Contains(FormatAddress(org), parts[i])
  {
    var parts := AddressParts(org);
    JoinKeptEmptyIff(parts, Present);
    forall i | 0 <= i < |parts| && !IsBlank(parts[i]) ensures Contains(FormatAddress(org), parts[i]) {
      JoinKeptContains(parts, Present, i);
    }
  }

  /**
   * The popup's address and the card's address agree whenever the record's
   * street and postal code are blank: both keep the non-blank parts among
   * city, state or province and country, in the same order.
   */
  lemma FormatAddressMatchesCard(org: Organization)
    requires IsBlank(org.street) && IsBlank(org.zipPostalCode)
    ensures FormatAddress(org) == ParseOrganizationForCard(org).address
  {
    var middle := CardParts(org);
    FormatAddressFromCardParts(org);
    PresentIffNotBlank(org.street);
    PresentIffNotBlank(org.zipPostalCode);
    PresentAgreesWithHasText(middle);
    JoinKeptInner(org.street, middle, org.zipPostalCode, Present, HasText);
  }

  /** The popup's parts are the card's, between street and postal code. */
  lemma FormatAddressFromCardParts(org: Organization)
    ensures FormatAddress(org) == JoinKept([org.street] + CardParts(org) + [org.zipPostalCode], Present)
  {
    assert AddressParts(org) == [org.street] + CardParts(org) + [org.zipPostalCode];
  }

  lemma PresentAgreesWithHasText(parts: seq<string>)
    ensures forall i :: 0 <= i < |parts| ==> Present(parts[i]) == HasText(parts[i])
  {
    forall i | 0 <= i < |parts| ensures Present(parts[i]) == HasText(parts[i]) {
      PresentIffNotBlank(parts[i]);
    }
  }
}
