/**
 * The search panel's derived state: the case-insensitive substring filter
 * over ten text fields, the no-results flag, the empty-state message and
 * the result-count caption.
 */
module SearchPanel {
  import opened Strings
  import opened Types
  import opened Lists

  /** The ten text fields the filter searches, in the order of its `||` chain. */
  function TextFields(org: Organization): (r: seq<string>)
    ensures |r| == 10
  {
    [org.organizationName, org.mission, org.website, org.contactEmail, org.headquartersAddress,
     org.street, org.city, org.stateProvince, org.country, org.zipPostalCode]
  }

  /** The `filter` callback: some field, lower-cased, includes the (already lower-cased) query. */
  predicate Matches(org: Organization, query: string) {
    || Contains(ToLower(org.organizationName), query)
    || Contains(ToLower(org.mission), query)
    || Contains(ToLower(org.website), query)
    || Contains(ToLower(org.contactEmail), query)
    || Contains(ToLower(org.headquartersAddress), query)
    || Contains(ToLower(org.street), query)
    || Contains(ToLower(org.city), query)
    || Contains(ToLower(org.stateProvince), query)
    || Contains(ToLower(org.country), query)
    || Contains(ToLower(org.zipPostalCode), query)
  }

  /**
   * `filteredOrganizations`: the whole list when the query is blank after
   * trimming; otherwise the records matching the lower-cased, untrimmed query.
   */
  function FilterOrganizations(orgs: seq<Organization>, searchQuery: string): seq<Organization> {
    if IsBlank(searchQuery) then orgs
    else
      var query := ToLower(searchQuery);
      Filter(orgs, org => Matches(org, query))
  }

  /** The `||` chain is the same as asking for some field, in the list of ten, that contains the query. */
  lemma MatchesSomeField(org: Organization, query: string)
    ensures Matches(org, query) <==>
      exists k :: 0 <= k < |TextFields(org)| && Contains(ToLower(TextFields(org)[k]), query)
  {
    var fs := TextFields(org);
    if Matches(org, query) {
      var k :| 0 <= k < 10 && Contains(ToLower(fs[k]), query) by {
        if Contains(ToLower(fs[0]), query) { assert Contains(ToLower(fs[0]), query); }
        else if Contains(ToLower(fs[1]), query) { assert Contains(ToLower(fs[1]), query); }
        else if Contains(ToLower(fs[2]), query) { assert Contains(ToLower(fs[2]), query); }
        else if Contains(ToLower(fs[3]), query) { assert Contains(ToLower(fs[3]), query); }
        else if Contains(ToLower(fs[4]), query) { assert Contains(ToLower(fs[4]), query); }
        else if Contains(ToLower(fs[5]), query) { assert Contains(ToLower(fs[5]), query); }
        else if Contains(ToLower(fs[6]), query) { assert Contains(ToLower(fs[6]), query); }
        else if Contains(ToLower(fs[7]), query) { assert Contains(ToLower(fs[7]), query); }
        else if Contains(ToLower(fs[8]), query) { assert Contains(ToLower(fs[8]), query); }
        else { assert Contains(ToLower(fs[9]), query); }
      }
    }
  }

  /**
   * The filter's result is an order-preserving sub-list of the input; a
   * blank query returns the input itself; otherwise a record is kept exactly
   * when one of its ten fields, lower-cased, includes the lower-cased query.
   */
  lemma FilterOrganizationsSpec(orgs: seq<Organization>, searchQuery: string)
    ensures SubList(FilterOrganizations(orgs, searchQuery), orgs)
    ensures IsBlank(searchQuery) ==> FilterOrganizations(orgs, searchQuery) == orgs
    ensures !IsBlank(searchQuery) ==> forall org :: org in FilterOrganizations(orgs, searchQuery) <==>
      (org in orgs && exists k :: 0 <= k < |TextFields(org)| && Contains(ToLower(TextFields(org)[k]), ToLower(searchQuery)))
  {
    var query := ToLower(searchQuery);
    if IsBlank(searchQuery) {
      SubListReflexive(orgs);
    } else {
      FilterIsSubList(orgs, org => Matches(org, query));
      forall org ensures Matches(org, query) <==>
        exists k :: 0 <= k < |TextFields(org)| && Contains(ToLower(TextFields(org)[k]), query)
      {
        MatchesSomeField(org, query);
      }
    }
  }

  /** Coordinates take no part in matching. */
  lemma MatchIgnoresCoordinates(org: Organization, query: string, lat: real, lng: real)
    ensures Matches(org.(siteLatitude := lat, siteLongitude := lng), query) == Matches(org, query)
  {
  }

  lemma {:induction false} SubListReflexive<T>(xs: seq<T>)
    ensures SubList(xs, xs)
  {
    if xs != [] {
      SubListReflexive(xs[1..]);
    }
  }

  lemma ToLowerIdempotent(s: string)
    ensures ToLower(ToLower(s)) == ToLower(s)
  {
  }

  /** Lower-casing keeps whitespace and changes only letters, so it keeps a query blank or non-blank. */
  lemma ToLowerKeepsBlank(s: string)
    ensures IsBlank(ToLower(s)) == IsBlank(s)
  {
    BlankIffAllWhitespace(s);
    BlankIffAllWhitespace(ToLower(s));
    forall k | 0 <= k < |s| ensures IsWhitespace(ToLower(s)[k]) == IsWhitespace(s[k]) {
      LowerCharKeepsWhitespace(s[k]);
    }
  }

  lemma LowerCharKeepsWhitespace(c: char)
    ensures IsWhitespace(LowerChar(c)) == IsWhitespace(c)
  {
    if 'A' <= c <= 'Z' {
      assert 'a' <= LowerChar(c) <= 'z';
    }
  }

  /** The search is case-insensitive in the query: a query and its lower-cased form select the same records. */
  lemma FilterCaseInsensitive(orgs: seq<Organization>, searchQuery: string)
    ensures FilterOrganizations(orgs, ToLower(searchQuery)) == FilterOrganizations(orgs, searchQuery)
  {
    ToLowerKeepsBlank(searchQuery);
    ToLowerIdempotent(searchQuery);
  }

  /** `hasNoResults`. */
  predicate HasNoResults(filtered: seq<Organization>) {
    |filtered| == 0
  }

  /** There are no results exactly when the list is empty, or the query is not blank and matches no record. */
  lemma HasNoResultsIff(orgs: seq<Organization>, searchQuery: string)
    ensures HasNoResults(FilterOrganizations(orgs, searchQuery)) <==>
      (orgs == [] || (!IsBlank(searchQuery) && forall k :: 0 <= k < |orgs| ==> !Matches(orgs[k], ToLower(searchQuery))))
  {
    if !IsBlank(searchQuery) {
      var query := ToLower(searchQuery);
      FilterEmptyIff(orgs, org => Matches(org, query));
    }
  }

  /** `emptyMessage`: the no-match text for any non-empty query, even a blank one. */
  function EmptyMessage(searchQuery: string, noSearchMatch: string, noOrganizations: string): (message: string)
    ensures message == noSearchMatch || message == noOrganizations
    ensures searchQuery != "" ==> message == noSearchMatch
    ensures searchQuery == "" ==> message == noOrganizations
  {
    if searchQuery != "" then noSearchMatch else noOrganizations
  }

  /**
   * A whitespace-only query does not filter, yet selects the no-match
   * message: an empty directory searched with " " reports that nothing
   * matched the search rather than that there are no organizations.
   */
  lemma WhitespaceQueryMessage(orgs: seq<Organization>, searchQuery: string, noSearchMatch: string, noOrganizations: string)
    requires searchQuery != "" && AllWhitespace(searchQuery)
    ensures FilterOrganizations(orgs, searchQuery) == orgs
    ensures EmptyMessage(searchQuery, noSearchMatch, noOrganizations) == noSearchMatch
  {
    BlankIffAllWhitespace(searchQuery);
  }

  /** `organizationText`: the count, " organization", the plural suffix unless the count is 1, and " found". */
  function OrganizationText(count: nat, pluralSuffix: string): string {
    DecimalString(count) + " organization" + (if count != 1 then pluralSuffix else "") + " found"
  }

  /** The longest prefix of decimal digits. */
  function LeadingDigits(s: string): (r: string)
    ensures r <= s
    ensures forall k :: 0 <= k < |r| ==> '0' <= r[k] <= '9'
  {
    if s == [] || !('0' <= s[0] <= '9') then [] else [s[0]] + LeadingDigits(s[1..])
  }

  lemma {:induction false} LeadingDigitsOfDigits(a: string, b: string)
    requires forall k :: 0 <= k < |a| ==> '0' <= a[k] <= '9'
    requires b != [] && !('0' <= b[0] <= '9')
    ensures LeadingDigits(a + b) == a
  {
    if a != [] {
      assert (a + b)[1..] == a[1..] + b;
      LeadingDigitsOfDigits(a[1..], b);
    } else {
      assert a + b == b;
    }
  }

  /** The caption begins with the count written in decimal, so reading its leading digits gives the count back. */
  lemma OrganizationTextCount(count: nat, pluralSuffix: string)
    ensures DecimalValue(LeadingDigits(OrganizationText(count, pluralSuffix))) == count
  {
    var digits := DecimalString(count);
    var rest := " organization" + (if count != 1 then pluralSuffix else "") + " found";
    assert OrganizationText(count, pluralSuffix) == digits + rest;
    LeadingDigitsOfDigits(digits, rest);
    DecimalRoundTrip(count);
  }

  /** The plural suffix shows in the caption exactly when the count is not 1. */
  lemma OrganizationTextPlural(count: nat, pluralSuffix: string)
    requires pluralSuffix != ""
    ensures OrganizationText(count, pluralSuffix) != OrganizationText(count, "") <==> count != 1
  {
    if count != 1 {
      assert |OrganizationText(count, pluralSuffix)| > |OrganizationText(count, "")|;
    }
  }
}
