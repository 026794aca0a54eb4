/**
 * The quote-aware CSV reader (`parseCSV`, `parseCSVLine`) and the
 * transformer from row mappings to `Organization` records, with the two
 * small value cleaners of the same source file.
 */
module CsvParser {
  import opened Wrappers
  import opened Strings
  import opened Types
  import opened Lists

  /** A data row (`CSVRow`): header name to cell text. */
  type Row = map<string, string>

  /** JavaScript's `parseFloat`, supplied by the caller; `None` stands for NaN. */
  type NumberParser = string -> Option<real>

  // ---------------------------------------------------------------------
  // parseCSVLine
  // ---------------------------------------------------------------------

  /** The scanner's variables: the finished fields, the field being read and whether a quote is open. */
  datatype LineScan = LineScan(fields: seq<string>, current: string, inQuotes: bool)

  const StartScan := LineScan([], "", false)

  /** One turn of the scanner's loop: a quote toggles, a comma outside quotes ends a field, anything else is kept. */
  function ScanChar(st: LineScan, c: char): LineScan {
    if c == '"' then st.(inQuotes := !st.inQuotes)
    else if c == ',' && !st.inQuotes then LineScan(st.fields + [st.current], "", st.inQuotes)
    else st.(current := st.current + [c])
  }

  /** The scanner's variables after reading `s`, starting from `st`. */
  function ScanFrom(st: LineScan, s: string): LineScan {
    if s == [] then st else ScanChar(ScanFrom(st, s[..|s| - 1]), s[|s| - 1])
  }

  /** The fields `parseCSVLine` returns: the finished fields, then the one being read at the end of the line. */
  function LineFields(line: string): seq<string> {
    var st := ScanFrom(StartScan, line);
    st.fields + [st.current]
  }

  /** `parseCSVLine`: a character scanner over the line. */
  method ParseCSVLine(line: string) returns (result: seq<string>)
    ensures result == LineFields(line)
  {
    result := [];
    var current := "";
    var inQuotes := false;
    for i := 0 to |line|
      invariant LineScan(result, current, inQuotes) == ScanFrom(StartScan, line[..i])
    {
      assert line[..i + 1][..i] == line[..i];
      var c := line[i];
      if c == '"' {
        inQuotes := !inQuotes;
      } else if c == ',' && !inQuotes {
        result := result + [current];
        current := "";
      } else {
        current := current + [c];
      }
    }
    assert line[..|line|] == line;
    result := result + [current];
  }

  /** Number of commas of `s` read while no quote is open, that is, with an even number of quotes before them. */
  function UnquotedCommas(s: string): nat {
    if s == [] then 0
    else
      var init := s[..|s| - 1];
      UnquotedCommas(init) + (if s[|s| - 1] == ',' && Count(init, '"') % 2 == 0 then 1 else 0)
  }

  /** What the scanner's variables hold after any prefix of a line. */
  lemma ScanInvariant(s: string)
    ensures var st := ScanFrom(StartScan, s);
      && st.inQuotes == (Count(s, '"') % 2 == 1)
      && |st.fields| == UnquotedCommas(s)
      && Join(st.fields + [st.current], ",") == RemoveChar(s, '"')
      && '"' !in st.current
      && forall k :: 0 <= k < |st.fields| ==> '"' !in st.fields[k]
  {
    ScanCounts(s);
    ScanJoin(s);
  }

  /** The quote flag is the parity of the quotes read, the finished fields number the unquoted commas, and no field holds a quote. */
  lemma {:induction false} ScanCounts(s: string)
    ensures var st := ScanFrom(StartScan, s);
      && st.inQuotes == (Count(s, '"') % 2 == 1)
      && |st.fields| == UnquotedCommas(s)
      && '"' !in st.current
      && forall k :: 0 <= k < |st.fields| ==> '"' !in st.fields[k]
  {
    if s != [] {
      ScanCounts(s[..|s| - 1]);
    }
  }

  /** Joining the fields read so far with commas gives the text read so far without its quotes. */
  lemma {:induction false} ScanJoin(s: string)
    ensures var st := ScanFrom(StartScan, s);
      Join(st.fields + [st.current], ",") == RemoveChar(s, '"')
  {
    if s != [] {
      var init, c := s[..|s| - 1], s[|s| - 1];
      ScanJoin(init);
      var st := ScanFrom(StartScan, init);
      var xs := st.fields + [st.current];
      if c == ',' && !st.inQuotes {
        var ys := xs + [""];
        assert ys[..|ys| - 1] == xs;
      } else if c != '"' {
        var ys := st.fields + [st.current + [c]];
        if st.fields != [] {
          assert ys[..|ys| - 1] == st.fields == xs[..|xs| - 1];
        }
      }
    }
  }

  /** `parseCSVLine` yields one field more than there are commas outside quotes (so at least one). */
  lemma LineFieldsCount(line: string)
    ensures |LineFields(line)| == UnquotedCommas(line) + 1
  {
    ScanInvariant(line);
  }

  /** Joining the fields with commas gives back the line with every quote deleted, and no field holds a quote. */
  lemma LineFieldsJoin(line: string)
    ensures Join(LineFields(line), ",") == RemoveChar(line, '"')
    ensures forall k :: 0 <= k < |LineFields(line)| ==> '"' !in LineFields(line)[k]
  {
    ScanInvariant(line);
    var st := ScanFrom(StartScan, line);
    forall k | 0 <= k < |LineFields(line)| ensures '"' !in LineFields(line)[k] {
      if k < |st.fields| { assert LineFields(line)[k] == st.fields[k]; }
    }
  }

  /** On a line without quotes, `parseCSVLine` agrees with `line.split(',')`. */
  lemma {:induction false} LineFieldsWithoutQuotes(line: string)
    requires '"' !in line
    ensures LineFields(line) == Split(line, ',')
    ensures !ScanFrom(StartScan, line).inQuotes
  {
    if line != [] {
      var init, c := line[..|line| - 1], line[|line| - 1];
      assert '"' !in init;
      LineFieldsWithoutQuotes(init);
      assert line == init + [c];
      SplitSnoc(init, c, ',');
      var st := ScanFrom(StartScan, init);
      var p := st.fields + [st.current];
      if c != ',' {
        assert p[..|p| - 1] == st.fields;
      }
    }
  }

  /** Reading `a` then `b` is reading `a + b`. */
  lemma {:induction false} ScanFromAppend(st: LineScan, a: string, b: string)
    ensures ScanFrom(st, a + b) == ScanFrom(ScanFrom(st, a), b)
  {
    if b == [] {
      assert a + b == a;
    } else {
      ScanFromAppend(st, a, b[..|b| - 1]);
      assert (a + b)[..|a + b| - 1] == a + b[..|b| - 1];
    }
  }

  /** Inside quotes every character but a quote, commas included, goes to the current field. */
  lemma {:induction false} ScanInsideQuotes(st: LineScan, x: string)
    requires st.inQuotes && '"' !in x
    ensures ScanFrom(st, x) == st.(current := st.current + x)
  {
    if x != [] {
      assert '"' !in x[..|x| - 1];
      ScanInsideQuotes(st, x[..|x| - 1]);
      assert st.current + x == st.current + x[..|x| - 1] + [x[|x| - 1]];
    }
  }

  /** A field written as `"x"` is appended verbatim to the current field and leaves the quote closed. */
  lemma ScanQuotedField(st: LineScan, x: string)
    requires !st.inQuotes && '"' !in x
    ensures ScanFrom(st, Quote(x)) == st.(current := st.current + x)
  {
    assert Quote(x) == ['"'] + x + ['"'];
    ScanFromAppend(st, ['"'] + x, ['"']);
    ScanFromAppend(st, ['"'], x);
    assert ScanFrom(st, ['"']) == st.(inQuotes := true) by {
      assert ['"'][..0] == [];
    }
    ScanInsideQuotes(st.(inQuotes := true), x);
    assert ScanFrom(ScanFrom(st, ['"'] + x), ['"']) == ScanChar(ScanFrom(st, ['"'] + x), '"') by {
      assert ['"'][..0] == [];
    }
  }

  /** A field enclosed in double quotes. */
  function Quote(x: string): string {
    "\"" + x + "\""
  }

  /** A line that writes every field in double quotes and separates them by commas. */
  function QuotedLine(xs: seq<string>): string {
    Join(seq(|xs|, k requires 0 <= k < |xs| => Quote(xs[k])), ",")
  }

  /**
   * Round trip: a line whose fields are written in quotes, none of them
   * holding a quote itself, is read back as exactly those fields, commas
   * inside the fields included.
   */
  lemma {:induction false} QuotedLineRoundTrip(xs: seq<string>)
    requires xs != []
    requires forall k :: 0 <= k < |xs| ==> '"' !in xs[k]
    ensures ScanFrom(StartScan, QuotedLine(xs)) == LineScan(xs[..|xs| - 1], xs[|xs| - 1], false)
    ensures LineFields(QuotedLine(xs)) == xs
  {
    var n := |xs|;
    var qs := seq(n, k requires 0 <= k < n => Quote(xs[k]));
    if n == 1 {
      ScanQuotedField(StartScan, xs[0]);
      assert QuotedLine(xs) == Quote(xs[0]);
    } else {
      var init := xs[..n - 1];
      QuotedLineRoundTrip(init);
      var qi := seq(n - 1, k requires 0 <= k < n - 1 => Quote(init[k]));
      assert qs[..n - 1] == qi;
      assert QuotedLine(xs) == QuotedLine(init) + "," + Quote(xs[n - 1]);
      ScanFromAppend(StartScan, QuotedLine(init) + ",", Quote(xs[n - 1]));
      ScanFromAppend(StartScan, QuotedLine(init), ",");
      assert ","[..0] == [];
      var afterComma := LineScan(init, "", false);
      assert ScanFrom(ScanFrom(StartScan, QuotedLine(init)), ",") == afterComma;
      ScanQuotedField(afterComma, xs[n - 1]);
    }
    assert xs == xs[..n - 1] + [xs[n - 1]];
  }

  /** A quoted field holding a comma, such as `"Ocean Corp, Inc."`, is read as one field without its quotes. */
  lemma QuotedCommaIsOneField(x: string)
    requires '"' !in x
    ensures LineFields(Quote(x)) == [x]
  {
    QuotedLineRoundTrip([x]);
    assert QuotedLine([x]) == Quote(x);
  }

  // ---------------------------------------------------------------------
  // parseCSV
  // ---------------------------------------------------------------------

  /**
   * The header row is split on every comma, quotes or not: a header line and
   * a data line both written as `"x"` with a comma inside `x` give at least
   * two header names but a single field, so that data line is dropped.
   */
  lemma QuotedHeaderSplits(x: string)
    requires '"' !in x && ',' in x
    ensures |Headers(Quote(x))| >= 2
    ensures LineFields(Quote(x)) == [x]
    ensures LineRow(Headers(Quote(x)), Quote(x)) == []
  {
    QuotedCommaIsOneField(x);
    CountPositive(x, ',');
    CountAppend("\"" + x, "\"", ',');
    CountAppend("\"", x, ',');
  }

  /** A header row written from clean names (no comma, no quote, no edge whitespace) reads back as exactly those names. */
  lemma HeadersRoundTrip(names: seq<string>)
    requires names != []
    requires forall k :: 0 <= k < |names| ==> ',' !in names[k] && '"' !in names[k] && Trim(names[k]) == names[k]
    ensures Headers(Join(names, ",")) == names
  {
    SplitJoin(names, ',');
    forall k | 0 <= k < |names| ensures CleanCell(names[k]) == names[k] {
      CleanQuoteFree(names[k]);
    }
  }

  /** `value.trim().replace(/"/g, '')`, applied to every header and every cell. */
  function CleanCell(s: string): string {
    RemoveChar(Trim(s), '"')
  }

  /** `xs.map(CleanCell)`. */
  function CleanAll(xs: seq<string>): (r: seq<string>)
    ensures |r| == |xs|
    ensures forall k :: 0 <= k < |xs| ==> r[k] == CleanCell(xs[k])
  {
    seq(|xs|, k requires 0 <= k < |xs| => CleanCell(xs[k]))
  }

  /** The header names: the first line split on every comma (quotes are not respected), each cleaned. */
  function Headers(line: string): seq<string> {
    CleanAll(Split(line, ','))
  }

  /** The mapping a `forEach` over the keys builds: key `k` set to value `k`, in order, so a repeated key keeps its last value. */
  function ZipRow(keys: seq<string>, values: seq<string>): Row
    requires |keys| <= |values|
  {
    if keys == [] then map[]
    else ZipRow(keys[..|keys| - 1], values)[keys[|keys| - 1] := values[|keys| - 1]]
  }

  /** What one data line contributes: a mapping when it has exactly one field per header, nothing otherwise. */
  function LineRow(headers: seq<string>, line: string): seq<Row> {
    var values := LineFields(line);
    if |values| == |headers| then [ZipRow(headers, CleanAll(values))] else []
  }

  /** The mappings of the data lines, in input order. */
  function DataRows(headers: seq<string>, lines: seq<string>): seq<Row> {
    FlatMap(lines, line => LineRow(headers, line))
  }

  /** The result of `parseCSV`: the trimmed text split on newlines, the first line the header row. */
  function CsvRows(csvText: string): seq<Row> {
    var lines := Split(Trim(csvText), '\n');
    if |lines| < 2 then [] else DataRows(Headers(lines[0]), lines[1..])
  }

  /** `parseCSV`. */
  method ParseCSV(csvText: string) returns (rows: seq<Row>)
    ensures rows == CsvRows(csvText)
  {
    var lines := Split(Trim(csvText), '\n');
    if |lines| < 2 {
      return [];
    }
    rows := ParseDataRows(Headers(lines[0]), lines[1..]);
  }

  /** The loop of `parseCSV` over the lines after the header row. */
  method ParseDataRows(headers: seq<string>, lines: seq<string>) returns (rows: seq<Row>)
    ensures rows == DataRows(headers, lines)
  {
    rows := [];
    for i := 0 to |lines|
      invariant rows == DataRows(headers, lines[..i])
    {
      var values := ParseCSVLine(lines[i]);
      LineRowOf(headers, lines[i], values);
      if |values| == |headers| {
        var row := BuildRow(headers, values);
        DataRowsStep(headers, lines, i, [row]);
        rows := rows + [row];
      } else {
        DataRowsStep(headers, lines, i, []);
      }
    }
    assert lines[..|lines|] == lines;
  }

  /** One turn of the loop of `parseCSV`: line `i` appends what it contributes. */
  lemma DataRowsStep(headers: seq<string>, lines: seq<string>, i: nat, step: seq<Row>)
    requires i < |lines| && LineRow(headers, lines[i]) == step
    ensures DataRows(headers, lines[..i + 1]) == DataRows(headers, lines[..i]) + step
  {
    assert lines[..i + 1] == lines[..i] + [lines[i]];
    DataRowsSnoc(headers, lines[..i], lines[i]);
  }

  /** `LineRow` in terms of the fields `parseCSVLine` returned for the line. */
  lemma LineRowOf(headers: seq<string>, line: string, values: seq<string>)
    requires values == LineFields(line)
    ensures |values| == |headers| ==> LineRow(headers, line) == [ZipRow(headers, CleanAll(values))]
    ensures |values| != |headers| ==> LineRow(headers, line) == []
  {
  }

  /** One more line appends its mapping, if it has one field per header. */
  lemma DataRowsSnoc(headers: seq<string>, lines: seq<string>, line: string)
    ensures DataRows(headers, lines + [line]) == DataRows(headers, lines) + LineRow(headers, line)
  {
    FlatMapSnoc(lines, line, l => LineRow(headers, l));
  }

  /** The `headers.forEach` of `parseCSV`: header `j` is set to field `j`, cleaned. */
  method BuildRow(headers: seq<string>, values: seq<string>) returns (row: Row)
    requires |values| == |headers|
    ensures row == ZipRow(headers, CleanAll(values))
  {
    row := map[];
    for j := 0 to |headers|
      invariant row == ZipRow(headers[..j], CleanAll(values))
    {
      assert headers[..j + 1][..j] == headers[..j];
      row := row[headers[j] := CleanCell(values[j])];
    }
    assert headers[..|headers|] == headers;
  }

  /** The keys of a zipped mapping are exactly the keys zipped. */
  lemma {:induction false} ZipRowKeys(keys: seq<string>, values: seq<string>, key: string)
    requires |keys| <= |values|
    ensures key in ZipRow(keys, values) <==> key in keys
  {
    if keys != [] {
      ZipRowKeys(keys[..|keys| - 1], values, key);
      assert keys == keys[..|keys| - 1] + [keys[|keys| - 1]];
    }
  }

  /** Key `i` maps to value `i`, unless the same key occurs again later (the later value then wins). */
  lemma {:induction false} ZipRowValue(keys: seq<string>, values: seq<string>, i: nat)
    requires |keys| <= |values| && i < |keys|
    requires forall j :: i < j < |keys| ==> keys[j] != keys[i]
    ensures keys[i] in ZipRow(keys, values) && ZipRow(keys, values)[keys[i]] == values[i]
  {
    if i < |keys| - 1 {
      ZipRowValue(keys[..|keys| - 1], values, i);
    }
  }

  /** Every value stored in a zipped mapping is one of the values zipped. */
  lemma {:induction false} ZipRowValues(keys: seq<string>, values: seq<string>, key: string)
    requires |keys| <= |values| && key in ZipRow(keys, values)
    ensures exists j :: 0 <= j < |keys| && keys[j] == key && ZipRow(keys, values)[key] == values[j]
  {
    var n := |keys|;
    if keys[n - 1] != key {
      ZipRowValues(keys[..n - 1], values, key);
      var j :| 0 <= j < n - 1 && keys[..n - 1][j] == key && ZipRow(keys[..n - 1], values)[key] == values[j];
      assert keys[j] == key;
    }
  }

  /** Lines are processed independently and their mappings keep input order. */
  lemma DataRowsAppend(headers: seq<string>, a: seq<string>, b: seq<string>)
    ensures DataRows(headers, a + b) == DataRows(headers, a) + DataRows(headers, b)
  {
    FlatMapAppend(a, b, line => LineRow(headers, line));
  }

  /** A mapping is produced exactly for the lines with one field per header, built from that line's fields. */
  lemma DataRowsMembers(headers: seq<string>, lines: seq<string>, row: Row)
    ensures row in DataRows(headers, lines) <==>
      exists i :: (0 <= i < |lines| && |LineFields(lines[i])| == |headers|
        && row == ZipRow(headers, CleanAll(LineFields(lines[i]))))
  {
    FlatMapMembers(lines, line => LineRow(headers, line), row);
  }

  /** Blank data lines are not skipped: under a single header, an empty line becomes the mapping of that header to "". */
  lemma EmptyLineBecomesRow(header: string)
    ensures LineRow([header], "") == [map[header := ""]]
  {
    assert ScanFrom(StartScan, "") == StartScan;
    assert LineFields("") == [""];
    assert CleanCell("") == "" by {
      assert |Trim("")| <= 0;
      assert |RemoveChar(Trim(""), '"')| <= 0;
    }
    assert CleanAll([""]) == [""];
    assert ZipRow([header], [""]) == ZipRow([], [""])[header := ""];
  }

  /** Fewer than two lines after trimming: no rows. */
  lemma CsvRowsTooShort(csvText: string)
    requires |Split(Trim(csvText), '\n')| < 2
    ensures CsvRows(csvText) == []
  {
  }

  /** A cleaned field of `parseCSVLine` is trimmed and holds no quote. */
  lemma CleanFieldShape(line: string, k: nat)
    requires k < |LineFields(line)|
    ensures CleanCell(LineFields(line)[k]) == Trim(LineFields(line)[k])
    ensures '"' !in CleanCell(LineFields(line)[k])
    ensures Trim(CleanCell(LineFields(line)[k])) == CleanCell(LineFields(line)[k])
  {
    LineFieldsJoin(line);
    CleanQuoteFree(LineFields(line)[k]);
  }

  /** Cleaning a quote-free cell only trims it, and the result is already trimmed. */
  lemma CleanQuoteFree(f: string)
    requires '"' !in f
    ensures CleanCell(f) == Trim(f) && '"' !in CleanCell(f) && Trim(CleanCell(f)) == CleanCell(f)
  {
    assert forall c :: c in Trim(f) ==> c in f by {
      assert Trim(f) == TrimEnd(TrimStart(f));
    }
    RemoveCharAbsent(Trim(f), '"');
    TrimIdempotent(f);
  }

  /**
   * Every mapping `parseCSV` produces has exactly the header names as keys,
   * and each value is the matching field of its line, trimmed and without quotes.
   */
  lemma CsvRowShape(headers: seq<string>, lines: seq<string>, row: Row)
    requires row in DataRows(headers, lines)
    ensures forall key :: key in row <==> key in headers
    ensures forall key :: key in row ==> '"' !in row[key] && Trim(row[key]) == row[key]
  {
    DataRowsMembers(headers, lines, row);
    var i :| 0 <= i < |lines| && |LineFields(lines[i])| == |headers|
      && row == ZipRow(headers, CleanAll(LineFields(lines[i])));
    var values := CleanAll(LineFields(lines[i]));
    forall key ensures key in row <==> key in headers {
      ZipRowKeys(headers, values, key);
    }
    forall key | key in row ensures '"' !in row[key] && Trim(row[key]) == row[key] {
      ZipRowValues(headers, values, key);
      var j :| 0 <= j < |headers| && headers[j] == key && row[key] == values[j];
      CleanFieldShape(lines[i], j);
    }
  }

  /** With distinct header names, header `j` maps to field `j` of the line, cleaned. */
  lemma CsvRowFields(headers: seq<string>, line: string, j: nat)
    requires |LineFields(line)| == |headers| && j < |headers|
    requires forall a, b :: 0 <= a < b < |headers| ==> headers[a] != headers[b]
    ensures LineRow(headers, line) == [ZipRow(headers, CleanAll(LineFields(line)))]
    ensures headers[j] in ZipRow(headers, CleanAll(LineFields(line)))
      && ZipRow(headers, CleanAll(LineFields(line)))[headers[j]] == Trim(LineFields(line)[j])
  {
    ZipRowValue(headers, CleanAll(LineFields(line)), j);
    CleanFieldShape(line, j);
  }

  // ---------------------------------------------------------------------
  // validateCoordinates and transformCSVToOrganizations
  // ---------------------------------------------------------------------

  /** `validateCoordinates`: both numeric, both non-zero, and inside the inclusive latitude and longitude ranges. */
  predicate ValidateCoordinates(latitude: Option<real>, longitude: Option<real>) {
    && latitude.Some?
    && longitude.Some?
    && latitude.value != 0.0
    && longitude.value != 0.0
    && -90.0 <= latitude.value <= 90.0
    && -180.0 <= longitude.value <= 180.0
  }

  /** `row[title] ?? row[camel] ?? fallback`: a present key wins even when its value is empty. */
  function Coalesce(row: Row, title: string, camel: string, fallback: string): string {
    if title in row then row[title] else if camel in row then row[camel] else fallback
  }

  /** The `map` callback: `None` (the source's `null`) when the coordinates fail validation, else the record. */
  function ConvertRow(row: Row, parseFloat: NumberParser): Option<Organization> {
    var latitude := parseFloat(Coalesce(row, "Site Latitude", "siteLatitude", "0"));
    var longitude := parseFloat(Coalesce(row, "Site Longitude", "siteLongitude", "0"));
    if !ValidateCoordinates(latitude, longitude) then None
    else Some(Organization(
      Coalesce(row, "Organization Name", "organizationName", ""),
      Coalesce(row, "Mission", "mission", ""),
      Coalesce(row, "Website", "website", ""),
      Coalesce(row, "Contact Email", "contactEmail", ""),
      Coalesce(row, "Headquarters Address", "headquartersAddress", ""),
      Coalesce(row, "Street", "street", ""),
      Coalesce(row, "City", "city", ""),
      Coalesce(row, "State/Province", "stateProvince", ""),
      Coalesce(row, "Country", "country", ""),
      Coalesce(row, "Zip/Postal Code", "zipPostalCode", ""),
      latitude.value,
      longitude.value))
  }

  /** The `filter` callback: a record was built and its name is not blank. */
  predicate Kept(candidate: Option<Organization>) {
    candidate.Some? && !IsBlank(candidate.value.organizationName)
  }

  /** What every record coming out of the transformer satisfies. */
  predicate IsValidRecord(org: Organization) {
    ValidateCoordinates(Some(org.siteLatitude), Some(org.siteLongitude)) && !IsBlank(org.organizationName)
  }

  /** What one row contributes to `transformCSVToOrganizations`: its record if the `map` built one and the `filter` keeps it. */
  function RowRecord(row: Row, parseFloat: NumberParser): (r: seq<Organization>)
    ensures |r| <= 1
  {
    var candidate := ConvertRow(row, parseFloat);
    if Kept(candidate) then [candidate.value] else []
  }

  /** `transformCSVToOrganizations`: `rows.map(ConvertRow).filter(Kept)`, taken row by row. */
  function Transform(rows: seq<Row>, parseFloat: NumberParser): seq<Organization> {
    FlatMap(rows, row => RowRecord(row, parseFloat))
  }

  /** The transformer handles rows independently and keeps their order. */
  lemma TransformAppend(a: seq<Row>, b: seq<Row>, parseFloat: NumberParser)
    ensures Transform(a + b, parseFloat) == Transform(a, parseFloat) + Transform(b, parseFloat)
  {
    FlatMapAppend(a, b, row => RowRecord(row, parseFloat));
  }

  /** A record is produced exactly for the rows whose coordinates validate and whose resolved name is not blank. */
  lemma TransformMembers(rows: seq<Row>, parseFloat: NumberParser, org: Organization)
    ensures org in Transform(rows, parseFloat) <==>
      exists i :: (0 <= i < |rows| && Kept(ConvertRow(rows[i], parseFloat))
        && ConvertRow(rows[i], parseFloat) == Some(org))
  {
    FlatMapMembers(rows, row => RowRecord(row, parseFloat), org);
  }

  /** Every record has valid, non-zero coordinates and a non-blank name; there are at most as many records as rows. */
  lemma TransformValid(rows: seq<Row>, parseFloat: NumberParser)
    ensures |Transform(rows, parseFloat)| <= |rows|
    ensures forall org :: org in Transform(rows, parseFloat) ==> IsValidRecord(org)
  {
    FlatMapLength(rows, row => RowRecord(row, parseFloat));
    forall org | org in Transform(rows, parseFloat) ensures IsValidRecord(org) {
      TransformMembers(rows, parseFloat, org);
    }
  }

  /**
   * Field resolution of one kept row: each text field is the Title-Case
   * header's value when that key is present (even if empty), else the
   * camelCase header's value, else empty; the coordinates are the parsed ones.
   */
  lemma TransformOneRow(row: Row, parseFloat: NumberParser)
    requires ValidateCoordinates(
      parseFloat(Coalesce(row, "Site Latitude", "siteLatitude", "0")),
      parseFloat(Coalesce(row, "Site Longitude", "siteLongitude", "0")))
    requires !IsBlank(Coalesce(row, "Organization Name", "organizationName", ""))
    ensures |Transform([row], parseFloat)| == 1
    ensures var org := Transform([row], parseFloat)[0];
      && Some(org.siteLatitude) == parseFloat(Coalesce(row, "Site Latitude", "siteLatitude", "0"))
      && Some(org.siteLongitude) == parseFloat(Coalesce(row, "Site Longitude", "siteLongitude", "0"))
      && ("Organization Name" in row ==> org.organizationName == row["Organization Name"])
      && ("Organization Name" !in row && "organizationName" in row ==> org.organizationName == row["organizationName"])
      && ("City" in row ==> org.city == row["City"])
      && ("City" !in row && "city" in row ==> org.city == row["city"])
      && ("City" !in row && "city" !in row ==> org.city == "")
      && ("State/Province" in row ==> org.stateProvince == row["State/Province"])
      && ("State/Province" !in row && "stateProvince" in row ==> org.stateProvince == row["stateProvince"])
      && ("State/Province" !in row && "stateProvince" !in row ==> org.stateProvince == "")
      && org.mission == Coalesce(row, "Mission", "mission", "")
      && org.website == Coalesce(row, "Website", "website", "")
      && org.contactEmail == Coalesce(row, "Contact Email", "contactEmail", "")
      && org.headquartersAddress == Coalesce(row, "Headquarters Address", "headquartersAddress", "")
      && org.street == Coalesce(row, "Street", "street", "")
      && org.country == Coalesce(row, "Country", "country", "")
      && org.zipPostalCode == Coalesce(row, "Zip/Postal Code", "zipPostalCode", "")
  {
    FlatMapSnoc([], row, r => RowRecord(r, parseFloat));
    assert [] + [row] == [row];
  }

  /** A row without either latitude key parses "0" as latitude and is therefore rejected. */
  lemma MissingLatitudeRejected(rows: seq<Row>, parseFloat: NumberParser)
    requires parseFloat("0") == Some(0.0)
    requires forall k :: 0 <= k < |rows| ==> "Site Latitude" !in rows[k] && "siteLatitude" !in rows[k]
    ensures Transform(rows, parseFloat) == []
  {
    if Transform(rows, parseFloat) != [] {
      TransformMembers(rows, parseFloat, Transform(rows, parseFloat)[0]);
    }
  }

  /** A row without either longitude key parses "0" as longitude and is therefore rejected. */
  lemma MissingLongitudeRejected(rows: seq<Row>, parseFloat: NumberParser)
    requires parseFloat("0") == Some(0.0)
    requires forall k :: 0 <= k < |rows| ==> "Site Longitude" !in rows[k] && "siteLongitude" !in rows[k]
    ensures Transform(rows, parseFloat) == []
  {
    if Transform(rows, parseFloat) != [] {
      TransformMembers(rows, parseFloat, Transform(rows, parseFloat)[0]);
    }
  }

  /**
   * The transformer reads no other aliases: a row naming its organization
   * only under a key such as `name` resolves the name to "" and is dropped.
   */
  lemma MissingNameRejected(rows: seq<Row>, parseFloat: NumberParser)
    requires forall k :: 0 <= k < |rows| ==> "Organization Name" !in rows[k] && "organizationName" !in rows[k]
    ensures Transform(rows, parseFloat) == []
  {
    if Transform(rows, parseFloat) != [] {
      TransformMembers(rows, parseFloat, Transform(rows, parseFloat)[0]);
      var i :| 0 <= i < |rows| && Kept(ConvertRow(rows[i], parseFloat));
      UnnamedRowDropped(rows[i], parseFloat);
    }
  }

  /** One row whose name keys are both absent: whatever its coordinates, the `filter` drops it. */
  lemma UnnamedRowDropped(row: Row, parseFloat: NumberParser)
    requires "Organization Name" !in row && "organizationName" !in row
    ensures !Kept(ConvertRow(row, parseFloat))
  {
    assert IsBlank("") by {
      assert AllWhitespace("");
    }
    if ConvertRow(row, parseFloat).Some? {
      assert ConvertRow(row, parseFloat).value.organizationName == "";
    }
  }

  /** End to end: when the header row names neither latitude column, the whole document yields no organization. */
  lemma NoLatitudeColumnNoOrganizations(csvText: string, parseFloat: NumberParser)
    requires parseFloat("0") == Some(0.0)
    requires var lines := Split(Trim(csvText), '\n');
      "Site Latitude" !in Headers(lines[0]) && "siteLatitude" !in Headers(lines[0])
    ensures Transform(CsvRows(csvText), parseFloat) == []
  {
    var lines := Split(Trim(csvText), '\n');
    if |lines| >= 2 {
      var rows := CsvRows(csvText);
      forall k | 0 <= k < |rows| ensures "Site Latitude" !in rows[k] && "siteLatitude" !in rows[k] {
        CsvRowShape(Headers(lines[0]), lines[1..], rows[k]);
      }
      MissingLatitudeRejected(rows, parseFloat);
    }
  }

  // ---------------------------------------------------------------------
  // cleanCSVValue and parseNumericValue
  // ---------------------------------------------------------------------

  predicate IsQuoteChar(c: char) {
    c == '"' || c == '\''
  }

  /** `t.replace(/^["']|["']$/g, '')`: one quote or apostrophe removed at the start and one at the end. */
  function StripEdgeQuotes(t: string): string {
    var s := if t != [] && IsQuoteChar(t[0]) then t[1..] else t;
    if s != [] && IsQuoteChar(s[|s| - 1]) then s[..|s| - 1] else s
  }

  /** `cleanCSVValue`: absent or empty gives "", otherwise trim then strip one edge quote per side. */
  function CleanCSVValue(value: Option<string>): (r: string)
    ensures value == None || value == Some("") ==> r == ""
    ensures value.Some? ==> |r| <= |Trim(value.value)|
  {
    if value.None? || value.value == "" then "" else StripEdgeQuotes(Trim(value.value))
  }

  /** `r` is `t` with `i` characters removed at the start and at most one at the end. */
  predicate SliceOf(t: string, r: string, i: int) {
    0 <= i <= 1 && i + |r| <= |t| <= i + |r| + 1 && r == t[i..i + |r|]
  }

  /**
   * `r` is `t` with at most one character removed at each end, each removed
   * character a quote or apostrophe, a leading quote always removed, and a
   * trailing quote left after that always removed too.
   */
  predicate EdgeQuotesRemoved(t: string, r: string) {
    exists i :: 0 <= i <= 1 && SliceOf(t, r, i)
      && (i == 1 <==> t != [] && IsQuoteChar(t[0]))
      && (i + |r| < |t| ==> IsQuoteChar(t[|t| - 1]))
      && (|t| > i && IsQuoteChar(t[|t| - 1]) ==> r == t[i..|t| - 1])
  }

  /** The cleaned value is the trimmed value with its edge quotes removed, one per side. */
  lemma CleanCSVValueShape(v: string)
    requires v != ""
    ensures EdgeQuotesRemoved(Trim(v), CleanCSVValue(Some(v)))
  {
    assert CleanCSVValue(Some(v)) == StripEdgeQuotes(Trim(v));
    StripEdgeQuotesShape(Trim(v));
  }

  /** The edge-quote regex on any text. */
  lemma StripEdgeQuotesShape(t: string)
    ensures EdgeQuotesRemoved(t, StripEdgeQuotes(t))
  {
    var i := if t != [] && IsQuoteChar(t[0]) then 1 else 0;
    assert SliceOf(t, StripEdgeQuotes(t), i);
  }

  /** A value already trimmed and not starting or ending with a quote is left as it is. */
  lemma CleanCSVValueKeepsPlain(v: string)
    requires v != [] && Trim(v) == v
    requires !IsQuoteChar(v[0]) && !IsQuoteChar(v[|v| - 1])
    ensures CleanCSVValue(Some(v)) == v
  {
  }

  /** `parseNumericValue`: the parsed cleaned value, with NaN replaced by 0, so the result is always a number. */
  function ParseNumericValue(value: Option<string>, parseFloat: NumberParser): (r: real)
    ensures parseFloat(CleanCSVValue(value)).Some? ==> r == parseFloat(CleanCSVValue(value)).value
    ensures parseFloat(CleanCSVValue(value)).None? ==> r == 0.0
  {
    match parseFloat(CleanCSVValue(value))
    case None => 0.0
    case Some(x) => x
  }
}
