/**
 * The older, split-based reader `parseCsvData` of the application
 * component: every comma splits, quotes are deleted, short rows are
 * skipped, and fields fall back through `||` to camelCase or short aliases.
 */
module LegacyParser {
  import opened Wrappers
  import opened Strings
  import opened Types
  import opened Lists
  import opened CsvParser

  /**
   * `row[k1] || row[k2] || ... || fallback`: the value of the first key that
   * is present with a non-empty value, or the fallback when there is none.
   */
  function FirstTruthy(row: Row, keys: seq<string>, fallback: string): string {
    if keys == [] then fallback
    else if keys[0] in row && row[keys[0]] != "" then row[keys[0]]
    else FirstTruthy(row, keys[1..], fallback)
  }

  /**
   * The meaning of an `||` chain: the fallback when no key holds a non-empty
   * value, and otherwise the value of the earliest key that does.
   */
  lemma {:induction false} FirstTruthyPicksEarliest(row: Row, keys: seq<string>, fallback: string)
    ensures var r := FirstTruthy(row, keys, fallback);
      (forall i :: 0 <= i < |keys| ==> keys[i] !in row || row[keys[i]] == "") ==> r == fallback
    ensures var r := FirstTruthy(row, keys, fallback);
      forall i :: 0 <= i < |keys| && keys[i] in row && row[keys[i]] != "" ==>
        (forall j :: 0 <= j < i ==> keys[j] !in row || row[keys[j]] == "") ==> r == row[keys[i]]
  {
    if keys != [] {
      FirstTruthyPicksEarliest(row, keys[1..], fallback);
      assert forall i :: 1 <= i < |keys| ==> keys[i] == keys[1..][i - 1];
    }
  }

  /**
   * An `||` alias is used when the preferred key is absent or empty: the name
   * falls back to `name` and the latitude text to `latitude`.
   */
  lemma LegacyAliasFallback(row: Row, lat: real, lng: real)
    requires "organizationName" !in row || row["organizationName"] == ""
    requires "siteLatitude" !in row || row["siteLatitude"] == ""
    ensures LegacyRecord(row, lat, lng).organizationName == (if "name" in row then row["name"] else "")
    ensures LatitudeText(row) == (if "latitude" in row && row["latitude"] != "" then row["latitude"] else "0")
  {
    var names, latitudes := ["organizationName", "name"], ["siteLatitude", "latitude"];
    assert names[1..] == ["name"] && ["name"][1..] == [];
    assert FirstTruthy(row, names, "") == FirstTruthy(row, ["name"], "");
    assert FirstTruthy(row, ["name"], "") == if "name" in row && row["name"] != "" then row["name"] else FirstTruthy(row, [], "");
    assert latitudes[1..] == ["latitude"] && ["latitude"][1..] == [];
    assert FirstTruthy(row, latitudes, "0") == FirstTruthy(row, ["latitude"], "0");
    assert FirstTruthy(row, ["latitude"], "0") == if "latitude" in row && row["latitude"] != "" then row["latitude"] else FirstTruthy(row, [], "0");
  }

  /** The two `continue` tests on the coordinates: NaN or zero, then out of range. */
  predicate Rejected(lat: Option<real>, lng: Option<real>) {
    || (lat.None? || lng.None? || lat.value == 0.0 || lng.value == 0.0)
    || (lat.value < -90.0 || lat.value > 90.0 || lng.value < -180.0 || lng.value > 180.0)
  }

  /** The record built from a row, each field through its `||` chain of aliases. */
  function LegacyRecord(row: Row, lat: real, lng: real): Organization {
    Organization(
      FirstTruthy(row, ["organizationName", "name"], ""),
      FirstTruthy(row, ["mission", "description"], ""),
      FirstTruthy(row, ["website"], ""),
      FirstTruthy(row, ["contactEmail", "email"], ""),
      FirstTruthy(row, ["headquartersAddress", "address"], ""),
      FirstTruthy(row, ["street"], ""),
      FirstTruthy(row, ["city"], ""),
      FirstTruthy(row, ["stateProvince", "state"], ""),
      FirstTruthy(row, ["country"], ""),
      FirstTruthy(row, ["zipPostalCode", "zip"], ""),
      lat,
      lng)
  }

  /** `row.siteLatitude || row.latitude || '0'`. */
  function LatitudeText(row: Row): string {
    FirstTruthy(row, ["siteLatitude", "latitude"], "0")
  }

  /** `row.siteLongitude || row.longitude || '0'`. */
  function LongitudeText(row: Row): string {
    FirstTruthy(row, ["siteLongitude", "longitude"], "0")
  }

  /** What a row of values contributes once the line passed its first two tests. */
  function RowOrganization(row: Row, parseFloat: NumberParser): (r: seq<Organization>)
    ensures |r| <= 1
  {
    var lat := parseFloat(LatitudeText(row));
    var lng := parseFloat(LongitudeText(row));
    if Rejected(lat, lng) then []
    else
      var organization := LegacyRecord(row, lat.value, lng.value);
      if organization.organizationName != "" then [organization] else []
  }

  /** What one data line contributes: nothing when any test skips it, else its record. */
  function LegacyLine(headers: seq<string>, line: string, parseFloat: NumberParser): (r: seq<Organization>)
    ensures |r| <= 1
  {
    var trimmed := Trim(line);
    if trimmed == "" then []
    else
      var values := CleanAll(Split(trimmed, ','));
      if |values| < |headers| then [] else RowOrganization(ZipRow(headers, values), parseFloat)
  }

  /** The records of the data lines, in input order. */
  function LegacyRows(headers: seq<string>, lines: seq<string>, parseFloat: NumberParser): seq<Organization> {
    FlatMap(lines, line => LegacyLine(headers, line, parseFloat))
  }

  /** The result of `parseCsvData`: the untrimmed text split on newlines, the first line the header row. */
  function LegacyOrganizations(csvText: string, parseFloat: NumberParser): seq<Organization> {
    var lines := Split(csvText, '\n');
    if |lines| < 2 then [] else LegacyRows(Headers(lines[0]), lines[1..], parseFloat)
  }

  lemma LegacyRowsSnoc(headers: seq<string>, lines: seq<string>, line: string, parseFloat: NumberParser)
    ensures LegacyRows(headers, lines + [line], parseFloat) == LegacyRows(headers, lines, parseFloat) + LegacyLine(headers, line, parseFloat)
  {
    FlatMapSnoc(lines, line, l => LegacyLine(headers, l, parseFloat));
  }

  /** The `headers.forEach` of `parseCsvData`: header `j` is set to value `j` (`values[index] || ''`). */
  method FillRow(headers: seq<string>, values: seq<string>) returns (row: Row)
    requires |headers| <= |values|
    ensures row == ZipRow(headers, values)
  {
    row := map[];
    for j := 0 to |headers|
      invariant row == ZipRow(headers[..j], values)
    {
      assert headers[..j + 1][..j] == headers[..j];
      row := row[headers[j] := if values[j] != "" then values[j] else ""];
    }
    assert headers[..|headers|] == headers;
  }

  /** `parseCsvData`: the untrimmed text split on newlines, the first line the header row. */
  method ParseCsvData(csvText: string, parseFloat: NumberParser) returns (data: seq<Organization>)
    ensures data == LegacyOrganizations(csvText, parseFloat)
  {
    var lines := Split(csvText, '\n');
    if |lines| < 2 {
      return [];
    }
    var headers := Headers(lines[0]);
    data := ParseDataLines(headers, lines[1..], parseFloat);
  }

  /** The loop of `parseCsvData` over the lines after the header row: each line adds its record, if any. */
  method ParseDataLines(headers: seq<string>, lines: seq<string>, parseFloat: NumberParser) returns (data: seq<Organization>)
    ensures data == LegacyRows(headers, lines, parseFloat)
  {
    data := [];
    for i := 0 to |lines|
      invariant data == LegacyRows(headers, lines[..i], parseFloat)
    {
      LegacyRowsSnoc(headers, lines[..i], lines[i], parseFloat);
      assert lines[..i + 1] == lines[..i] + [lines[i]];
      var found := ParseDataLine(headers, lines[i], parseFloat);
      data := data + found;
    }
    assert lines[..|lines|] == lines;
  }

  /**
   * One turn of the loop of `parseCsvData`: each early return of nothing is
   * one of the source's four `continue`s, and the record is returned only
   * when its name is non-empty.
   */
  method ParseDataLine(headers: seq<string>, raw: string, parseFloat: NumberParser) returns (found: seq<Organization>)
    ensures found == LegacyLine(headers, raw, parseFloat)
  {
    var line := Trim(raw);
    if line == "" {
      return [];
    }
    var values := CleanAll(Split(line, ','));
    if |values| < |headers| {
      return [];
    }
    var row := FillRow(headers, values);
    assert LegacyLine(headers, raw, parseFloat) == RowOrganization(row, parseFloat);
    var lat := parseFloat(LatitudeText(row));
    var lng := parseFloat(LongitudeText(row));
    if lat.None? || lng.None? || lat.value == 0.0 || lng.value == 0.0 {
      return [];
    }
    if lat.value < -90.0 || lat.value > 90.0 || lng.value < -180.0 || lng.value > 180.0 {
      return [];
    }
    var organization := LegacyRecord(row, lat.value, lng.value);
    if organization.organizationName != "" {
      found := [organization];
    } else {
      found := [];
    }
  }

  /** The legacy coordinate tests reject exactly what `validateCoordinates` rejects. */
  lemma RejectedIffInvalid(lat: Option<real>, lng: Option<real>)
    ensures Rejected(lat, lng) <==> !ValidateCoordinates(lat, lng)
  {
  }

  /** Lines are processed independently and their records keep input order. */
  lemma LegacyRowsAppend(headers: seq<string>, a: seq<string>, b: seq<string>, parseFloat: NumberParser)
    ensures LegacyRows(headers, a + b, parseFloat) == LegacyRows(headers, a, parseFloat) + LegacyRows(headers, b, parseFloat)
  {
    FlatMapAppend(a, b, l => LegacyLine(headers, l, parseFloat));
  }

  /** A record comes from exactly one of the data lines. */
  lemma LegacyRowsMembers(headers: seq<string>, lines: seq<string>, parseFloat: NumberParser, org: Organization)
    ensures org in LegacyRows(headers, lines, parseFloat) <==>
      exists i :: 0 <= i < |lines| && org in LegacyLine(headers, lines[i], parseFloat)
  {
    FlatMapMembers(lines, l => LegacyLine(headers, l, parseFloat), org);
  }

  /** A record that a line contributes has valid, non-zero coordinates and a non-empty name. */
  lemma LegacyLineValid(headers: seq<string>, line: string, parseFloat: NumberParser, org: Organization)
    requires org in LegacyLine(headers, line, parseFloat)
    ensures ValidateCoordinates(Some(org.siteLatitude), Some(org.siteLongitude)) && org.organizationName != ""
  {
  }

  /** Every record has valid, non-zero coordinates and a non-empty name; there are at most as many records as data lines. */
  lemma LegacyValid(headers: seq<string>, lines: seq<string>, parseFloat: NumberParser)
    ensures |LegacyRows(headers, lines, parseFloat)| <= |lines|
    ensures forall org :: org in LegacyRows(headers, lines, parseFloat) ==>
      ValidateCoordinates(Some(org.siteLatitude), Some(org.siteLongitude)) && org.organizationName != ""
  {
    FlatMapLength(lines, l => LegacyLine(headers, l, parseFloat));
    forall org | org in LegacyRows(headers, lines, parseFloat)
      ensures ValidateCoordinates(Some(org.siteLatitude), Some(org.siteLongitude)) && org.organizationName != ""
    {
      LegacyRowsMembers(headers, lines, parseFloat, org);
      var i :| 0 <= i < |lines| && org in LegacyLine(headers, lines[i], parseFloat);
      LegacyLineValid(headers, lines[i], parseFloat, org);
    }
  }

  /** A line that is blank after trimming, or that has fewer fields than there are headers, is skipped. */
  lemma LegacySkipsBlankAndShortLines(headers: seq<string>, line: string, parseFloat: NumberParser)
    requires IsBlank(line) || |Split(Trim(line), ',')| < |headers|
    ensures LegacyLine(headers, line, parseFloat) == []
  {
  }

  /** The comma split of a trimmed line loses nothing: the raw pieces, rejoined with commas, give the trimmed line back. */
  lemma LegacyPiecesRejoin(line: string)
    ensures Join(Split(Trim(line), ','), ",") == Trim(line)
  {
    JoinSplit(Trim(line), ',');
  }

  /** Extra trailing fields beyond the headers do not matter: only the first `|headers|` values are stored. */
  lemma {:induction false} ZipRowIgnoresExtraValues(keys: seq<string>, values: seq<string>)
    requires |keys| <= |values|
    ensures ZipRow(keys, values) == ZipRow(keys, values[..|keys|])
  {
    if keys != [] {
      ZipRowIgnoresExtraValues(keys[..|keys| - 1], values);
      ZipRowIgnoresExtraValues(keys[..|keys| - 1], values[..|keys|]);
      assert values[..|keys|][..|keys| - 1] == values[..|keys| - 1];
    }
  }

  /** A row with neither `siteLatitude` nor `latitude` parses its latitude from "0" and is rejected. */
  lemma RowWithoutLatitudeRejected(row: Row, parseFloat: NumberParser)
    requires parseFloat("0") == Some(0.0)
    requires "siteLatitude" !in row && "latitude" !in row
    ensures RowOrganization(row, parseFloat) == []
  {
    FirstTruthyPicksEarliest(row, ["siteLatitude", "latitude"], "0");
  }

  /**
   * The legacy reader never reads a Title-Case latitude column: when the
   * header row names neither `siteLatitude` nor `latitude`, every row's
   * latitude is parsed from "0" and no record is produced.
   */
  lemma LegacyNeedsCamelCaseLatitude(headers: seq<string>, lines: seq<string>, parseFloat: NumberParser)
    requires parseFloat("0") == Some(0.0)
    requires "siteLatitude" !in headers && "latitude" !in headers
    ensures LegacyRows(headers, lines, parseFloat) == []
  {
    var rows := LegacyRows(headers, lines, parseFloat);
    if rows != [] {
      LegacyRowsMembers(headers, lines, parseFloat, rows[0]);
      var i :| 0 <= i < |lines| && rows[0] in LegacyLine(headers, lines[i], parseFloat);
      var values := CleanAll(Split(Trim(lines[i]), ','));
      ZipRowKeys(headers, values, "siteLatitude");
      ZipRowKeys(headers, values, "latitude");
      RowWithoutLatitudeRejected(ZipRow(headers, values), parseFloat);
    }
  }

  /**
   * The two readers disagree on a spreadsheet exported with Title-Case
   * headers: such a header row has no camelCase latitude column, so the
   * legacy reader returns no organization whatever the data lines hold.
   */
  lemma TitleCaseSheetYieldsNothing(csvText: string, parseFloat: NumberParser)
    requires parseFloat("0") == Some(0.0)
    requires var lines := Split(csvText, '\n');
      "siteLatitude" !in Headers(lines[0]) && "latitude" !in Headers(lines[0])
    ensures LegacyOrganizations(csvText, parseFloat) == []
  {
    var lines := Split(csvText, '\n');
    if |lines| >= 2 {
      LegacyNeedsCamelCaseLatitude(Headers(lines[0]), lines[1..], parseFloat);
    }
  }
}
