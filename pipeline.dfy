/**
 * How the readers and the map helpers fit together: every record either
 * reader produces already passes the map's coordinate test, so the map
 * never drops one of them when it frames its view.
 */
module Pipeline {
  import opened Wrappers
  import opened Strings
  import opened Types
  import opened Lists
  import opened CsvParser
  import opened LegacyParser
  import opened MapUtils

  /** The readers' test is the map's test with zero added as a rejected value on either axis. */
  lemma ReaderTestIsStricter(latitude: Option<real>, longitude: Option<real>)
    ensures ValidateCoordinates(latitude, longitude) <==>
      IsValidCoordinate(latitude, longitude) && latitude.value != 0.0 && longitude.value != 0.0
  {
  }

  /**
   * A list whose records all pass the readers' test is framed in full: the
   * map keeps every record, and the bounds are missing exactly when the list
   * is empty.
   */
  lemma {:induction false} BoundsOfCheckedRecords(orgs: seq<Organization>)
    requires forall org :: org in orgs ==> ValidateCoordinates(Some(org.siteLatitude), Some(org.siteLongitude))
    ensures Filter(orgs, ValidateOrganizationCoordinates) == orgs
    ensures CalculateBounds(orgs).None? <==> orgs == []
  {
    forall i | 0 <= i < |orgs| ensures ValidateOrganizationCoordinates(orgs[i]) {
      assert orgs[i] in orgs;
    }
    CalculateBoundsNone(orgs);
    if orgs != [] {
      assert ValidateOrganizationCoordinates(orgs[0]);
    }
  }

  /** The transformer's records are all framed by the map. */
  lemma TransformedRecordsAreFramed(rows: seq<Row>, parseFloat: NumberParser)
    ensures var orgs := Transform(rows, parseFloat);
      && Filter(orgs, ValidateOrganizationCoordinates) == orgs
      && (CalculateBounds(orgs).None? <==> orgs == [])
  {
    var orgs := Transform(rows, parseFloat);
    TransformValid(rows, parseFloat);
    BoundsOfCheckedRecords(orgs);
  }

  /** The legacy reader's records are all framed by the map. */
  lemma LegacyRecordsAreFramed(csvText: string, parseFloat: NumberParser)
    ensures var orgs := LegacyOrganizations(csvText, parseFloat);
      && Filter(orgs, ValidateOrganizationCoordinates) == orgs
      && (CalculateBounds(orgs).None? <==> orgs == [])
  {
    var orgs := LegacyOrganizations(csvText, parseFloat);
    var lines := Split(csvText, '\n');
    if |lines| >= 2 {
      LegacyValid(Headers(lines[0]), lines[1..], parseFloat);
    }
    BoundsOfCheckedRecords(orgs);
  }
}
