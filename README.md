# map-app: the CSV ingestion pipeline and display helpers, in Dafny

map-app shows ocean-research organizations on a map. It reads a spreadsheet
export (CSV text) and turns it into a list of `Organization` records.
It frames the map around the records, filters them from a search box,
and formats each record for a directory card and a map popup.

This project models that logic and proves properties of it:

- `csv_parser.dfy` (module `CsvParser`) covers the quote-aware reader and the transformer:
  - `parseCSVLine` is a character scanner; the loop is kept as a method and proved against a scanner function;
  - `parseCSV` is a loop over lines, and each kept line's mapping is filled by a loop over the headers;
  - `validateCoordinates`;
  - `transformCSVToOrganizations`: it resolves Title-Case headers, then camelCase ones, with `??`, and keeps only valid records;
  - `cleanCSVValue` and `parseNumericValue`.
- `legacy_parser.dfy` (module `LegacyParser`) covers the older `parseCsvData` of `src/App.tsx`:
  - it splits on every comma;
  - it deletes every quote;
  - it skips short rows;
  - it resolves aliases with `||`.
  - It is kept imperative: a loop whose tests for blank and short lines, NaN or zero coordinates, out-of-range coordinates and an empty name decide what it pushes.
- `map_utils.dfy` (module `MapUtils`) covers:
  - `isValidCoordinate` and `validateOrganizationCoordinates`;
  - `calculateBounds`: a `reduce` to the extreme coordinates, then 10% padding clamped to the legal ranges;
  - `getMapCenter`;
  - the hemisphere letters of `formatCoordinates`.
- `search_panel.dfy` (module `SearchPanel`) covers the search filter and the three values derived from it: `hasNoResults`, `emptyMessage` and `organizationText`.
- `organization_card.dfy`, `popup_content.dfy` and `organization_popup.dfy` cover the card address and flags, the popup location, and the popup's `formatWebsite` and `formatAddress`.
  - These three share the "filter the parts, join with `", "`" idiom of `parts.dfy`.
- `pipeline.dfy` (module `Pipeline`) links the readers to the map: every record either reader produces passes the map's coordinate test. The map therefore frames all of them.
- The supporting modules:
  - `types.dfy`: the `Organization` record of `src/utils/types.ts` and `MapBounds`;
  - `strings.dfy`: JavaScript's `trim`, `split`, `join`, `replace`, `toLowerCase`, `includes` and `startsWith`, plus decimal rendering;
  - `lists.dfy`: `filter` and the sub-list order it keeps, and the concatenation a pushing loop builds;
  - `wrappers.dfy`: `Option`.

Dafny has no NaN, so JavaScript's `parseFloat` is a parameter of type `string -> Option<real>`. `None` stands for NaN. Coordinates are `real`.

The model follows the code where it departs from a permissive CSV reader:

- `parseCSV` drops rows whose field count differs from the header count. It is not permissive about ragged rows.
- The text is split on newlines before any quote handling, so a quoted field cannot span lines.
- Quotes are deleted from fields, not unescaped.
- `""` inside a field toggles the quote state twice.
- The header row is split on every comma, quoted or not, although data rows are quote-aware (`CsvParser.QuotedHeaderSplits`).
- `transformCSVToOrganizations` reads only the Title-Case and the camelCase key of each field. The short aliases `name`, `description`, `email`, `address`, `state`, `zip`, `latitude` and `longitude` exist only in the legacy reader. So a sheet naming its organizations under `name` yields nothing from `parseCSV` followed by the transformer (`CsvParser.MissingNameRejected`).
- `parseCSV` does not skip blank data lines. Under a single header an empty line becomes a mapping of that header to "" (`CsvParser.EmptyLineBecomesRow`).

## Model

| member | source | states |
|---|---|---|
| CsvParser.LineFields | src/utils/csvParser.ts:28-48 | the scanner function; its meaning is stated by `LineFieldsCount`, `LineFieldsJoin` and `QuotedLineRoundTrip` |
| CsvParser.Headers | src/utils/csvParser.ts:11 | the header names: every comma splits, each name cleaned; see `QuotedHeaderSplits` |
| CsvParser.CsvRows | src/utils/csvParser.ts:7-26 | the rows of a document; `ParseCSV` is proved equal to it and `CsvRowShape`, `DataRowsMembers` state its meaning |
| CsvParser.ValidateCoordinates | src/utils/csvParser.ts:50-59 | the reader's coordinate test; `Pipeline.ReaderTestIsStricter` relates it to the map's test |
| CsvParser.ConvertRow | src/utils/csvParser.ts:63-85 | the `map` callback; `TransformOneRow` states its field resolution |
| CsvParser.Kept | src/utils/csvParser.ts:86 | the `filter` callback; `TransformMembers` and `TransformValid` state what it keeps |
| CsvParser.Transform | src/utils/csvParser.ts:61-87 | `transformCSVToOrganizations`; its properties are `TransformAppend`, `TransformMembers`, `TransformValid` and `TransformOneRow` |
| LegacyParser.FirstTruthy | src/App.tsx:31-47 | an `||` chain over aliases; `FirstTruthyPicksEarliest` states its meaning |
| LegacyParser.Rejected | src/App.tsx:34-35 | the two `continue` tests; `RejectedIffInvalid` equates them with the reader's coordinate test |
| LegacyParser.LegacyRecord | src/App.tsx:37-50 | the record built from the aliases; see `LegacyAliasFallback` |
| LegacyParser.LegacyOrganizations | src/App.tsx:12-58 | `parseCsvData`; `ParseCsvData` is proved equal to it and `LegacyValid` states its guarantees |
| MapUtils.IsValidCoordinate | src/utils/mapUtils.ts:21-25 | the map's coordinate test; see `Pipeline.ReaderTestIsStricter` |
| MapUtils.ValidateOrganizationCoordinates | src/utils/mapUtils.ts:27-29 | the test applied to a record; `FilterAllValid` and `CalculateBoundsNone` use it |
| MapUtils.Envelope | src/utils/mapUtils.ts:38-46 | the `reduce`; `EnvelopeIsExtremes`, `EnvelopeBounds` and `EnvelopeInRange` state its meaning |
| MapUtils.Pad | src/utils/mapUtils.ts:48-56 | the padded and clamped box; `CalculateBoundsPadding` and `PadWidens` state its meaning |
| MapUtils.CalculateBounds | src/utils/mapUtils.ts:31-57 | `calculateBounds`; its properties are `CalculateBoundsNone`, `CalculateBoundsPadding` and `CalculateBoundsContains` |
| MapUtils.FormatCoordinates | src/utils/mapUtils.ts:72-76 | the magnitudes and letters; see `FormatCoordinatesRoundTrip` and `MirroredLabel` |
| SearchPanel.Matches | src/components/SearchPanel/useSearchPanel.ts:14-27 | the `filter` callback; `MatchesSomeField` states its meaning |
| SearchPanel.FilterOrganizations | src/components/SearchPanel/useSearchPanel.ts:8-28 | the filtered list; `FilterOrganizationsSpec` states its meaning |
| SearchPanel.HasNoResults | src/components/SearchPanel/useSearchPanel.ts:34 | `hasNoResults`; `HasNoResultsIff` characterises it |
| SearchPanel.OrganizationText | src/components/SearchPanel/useSearchPanel.ts:36 | the caption; `OrganizationTextCount` and `OrganizationTextPlural` state its meaning |
| OrganizationCard.ParseOrganizationForCard | src/components/OrganizationCard/OrganizationCard.utils.ts:3-18 | the card; `CardAddressEmptyIff`, `CardAddressParts`, `CardAddressAllPresent` and `CardFlags` state its meaning |
| PopupContent.ParseOrganizationForPopup | src/components/MapView/MapViewPopupContent/MapViewPopupContent.utils.ts:5-20 | the popup content; `PopupCopiesFields` and `PopupLocation` state its meaning |
| OrganizationPopup.FormatAddress | src/components/OrganizationPopup.tsx:10-20 | `formatAddress`; `FormatAddressSpec` and `FormatAddressMatchesCard` state its meaning |
| CsvParser.ParseCSVLine | src/utils/csvParser.ts:28-48 | the scanner loop returns exactly the fields of the scanner function: finished fields plus the one being read |
| CsvParser.ScanInvariant | src/utils/csvParser.ts:33-44 | after any prefix, the quote flag is the parity of the quotes read, there is one finished field per comma read outside quotes, no field holds a quote, and the fields joined by commas are the prefix with its quotes deleted |
| CsvParser.ScanCounts | src/utils/csvParser.ts:36-43 | the quote flag is the parity of quotes; the finished fields number the unquoted commas; no field holds a quote |
| CsvParser.ScanJoin | src/utils/csvParser.ts:36-43 | joining the fields so far with commas gives the text so far without quotes |
| CsvParser.LineFieldsCount | src/utils/csvParser.ts:28-48 | `parseCSVLine` yields one field more than the commas seen outside quotes, so at least one |
| CsvParser.LineFieldsJoin | src/utils/csvParser.ts:33-47 | round trip: the fields joined with "," give the line with every quote deleted, and no field holds a quote |
| CsvParser.LineFieldsWithoutQuotes | src/utils/csvParser.ts:28-48 | on a line without quotes the scanner agrees with `split(',')` and ends outside quotes |
| CsvParser.ScanFromAppend | src/utils/csvParser.ts:33-44 | scanning `a` then `b` is scanning `a + b` |
| CsvParser.ScanInsideQuotes | src/utils/csvParser.ts:36-43 | inside quotes, every character except a quote, commas included, goes to the current field |
| CsvParser.ScanQuotedField | src/utils/csvParser.ts:36-43 | a field written `"x"` adds `x` verbatim to the current field and closes the quote |
| CsvParser.QuotedLineRoundTrip | src/utils/csvParser.ts:28-48 | a line of quoted, quote-free fields separated by commas is read back as exactly those fields |
| CsvParser.QuotedCommaIsOneField | src/utils/csvParser.ts:36-40 | `"Ocean Corp, Inc."`-style fields are one field without their quotes |
| CsvParser.QuotedHeaderSplits | src/utils/csvParser.ts:11-16 | a header line `"x"` with a comma in `x` gives at least two headers, but the same data line gives one field, so that line is dropped |
| CsvParser.ParseCSV | src/utils/csvParser.ts:7-26 | the method returns exactly the rows of the trimmed text's data lines, the first line being the header row |
| CsvParser.ParseDataRows | src/utils/csvParser.ts:14-23 | the loop over data lines pushes, in order, the mapping of each line with one field per header |
| CsvParser.BuildRow | src/utils/csvParser.ts:17-20 | the `forEach` sets header j to field j, trimmed and with quotes deleted |
| CsvParser.ZipRowKeys | src/utils/csvParser.ts:17-20 | the row's keys are exactly the headers |
| CsvParser.ZipRowValue | src/utils/csvParser.ts:17-20 | header i maps to value i unless the same header repeats later, in which case the later value wins |
| CsvParser.ZipRowValues | src/utils/csvParser.ts:17-20 | every stored value is the value at some position of that header |
| CsvParser.DataRowsAppend | src/utils/csvParser.ts:14-23 | lines are handled independently and keep input order |
| CsvParser.DataRowsMembers | src/utils/csvParser.ts:14-23 | a mapping is produced iff some line has exactly one field per header, and it is built from that line |
| CsvParser.CsvRowsTooShort | src/utils/csvParser.ts:8-9 | fewer than two lines after trimming give no rows |
| CsvParser.CleanFieldShape | src/utils/csvParser.ts:19 | a cleaned field is already trimmed and holds no quote |
| CsvParser.CleanQuoteFree | src/utils/csvParser.ts:19 | cleaning a quote-free cell only trims it, and the result is already trimmed |
| CsvParser.EmptyLineBecomesRow | src/utils/csvParser.ts:14-21 | under a single header, an empty data line produces the mapping of that header to "" |
| CsvParser.CsvRowShape | src/utils/csvParser.ts:14-23 | every emitted row has exactly the headers as keys, and trimmed quote-free values |
| CsvParser.CsvRowFields | src/utils/csvParser.ts:16-20 | with distinct headers, header j maps to field j of the line, cleaned |
| CsvParser.RowRecord | src/utils/csvParser.ts:61-87 | one row contributes at most one record |
| CsvParser.TransformAppend | src/utils/csvParser.ts:61-87 | rows are transformed independently and keep their order |
| CsvParser.TransformMembers | src/utils/csvParser.ts:61-87 | a record is produced iff some row has valid coordinates and a resolved name that is not blank |
| CsvParser.TransformValid | src/utils/csvParser.ts:50-87 | no more records than rows; each has coordinates passing `validateCoordinates` (non-NaN, non-zero, in range) and a non-blank name |
| CsvParser.TransformOneRow | src/utils/csvParser.ts:64-84 | for each of the ten text fields a Title-Case key wins when present, even if empty; otherwise the camelCase key; otherwise ""; a valid, named row gives one record whose coordinates are the parsed ones |
| CsvParser.MissingLatitudeRejected | src/utils/csvParser.ts:64-69 | rows without a latitude key parse "0" and are all rejected |
| CsvParser.MissingLongitudeRejected | src/utils/csvParser.ts:64-69 | rows without a longitude key parse "0" and are all rejected |
| CsvParser.MissingNameRejected | src/utils/csvParser.ts:72-86 | rows with neither `Organization Name` nor `organizationName` resolve the name to "" and are all dropped |
| CsvParser.UnnamedRowDropped | src/utils/csvParser.ts:72-86 | one such row is dropped whatever its coordinates |
| CsvParser.NoLatitudeColumnNoOrganizations | src/utils/csvParser.ts:7-87 | a document whose headers name no latitude column yields no organization |
| CsvParser.HeadersRoundTrip | src/utils/csvParser.ts:11 | a header row written from names free of commas, quotes and edge whitespace reads back as exactly those names |
| CsvParser.CleanCSVValue | src/utils/csvParser.ts:89-92 | absent or empty gives ""; otherwise the result is no longer than the trimmed value |
| CsvParser.CleanCSVValueShape | src/utils/csvParser.ts:91 | the result is the trimmed value minus at most one quote or apostrophe at each end; a leading quote always goes, and so does a trailing quote left after that |
| CsvParser.StripEdgeQuotesShape | src/utils/csvParser.ts:91 | the same shape for the edge-quote regex on any text |
| CsvParser.CleanCSVValueKeepsPlain | src/utils/csvParser.ts:91 | a trimmed value with no quote at either end is unchanged |
| CsvParser.ParseNumericValue | src/utils/csvParser.ts:94-98 | the result is the parsed number, or 0 where the parse gives NaN, so never NaN |
| LegacyParser.FirstTruthyPicksEarliest | src/App.tsx:31-47 | an `||` chain gives the fallback when every alias is absent or empty, and otherwise the earliest non-empty alias |
| LegacyParser.LegacyAliasFallback | src/App.tsx:31-38 | an empty or missing `organizationName` falls back to `name`; an empty or missing `siteLatitude` falls back to `latitude`, then to "0" |
| LegacyParser.RowOrganization | src/App.tsx:31-54 | a row yields at most one record |
| LegacyParser.LegacyLine | src/App.tsx:20-54 | a line yields at most one record |
| LegacyParser.LegacyPiecesRejoin | src/App.tsx:20-23 | the comma split of the trimmed line loses nothing: its pieces rejoined with commas give the trimmed line |
| LegacyParser.FillRow | src/App.tsx:26-29 | the `forEach` sets header j to value j, ignoring values beyond the headers |
| LegacyParser.ParseCsvData | src/App.tsx:12-58 | the method returns exactly the records of the untrimmed text's data lines, the first line being the header row |
| LegacyParser.ParseDataLines | src/App.tsx:19-55 | the loop pushes, in order, each line's record if it has one |
| LegacyParser.ParseDataLine | src/App.tsx:20-54 | one loop turn yields nothing when a `continue` fires or the name is empty, and otherwise the line's record |
| LegacyParser.RejectedIffInvalid | src/App.tsx:34-35 | the two `continue` tests reject exactly what `validateCoordinates` rejects |
| LegacyParser.LegacyRowsAppend | src/App.tsx:19-55 | lines are handled independently and keep input order |
| LegacyParser.LegacyRowsMembers | src/App.tsx:19-55 | a record comes from one of the data lines |
| LegacyParser.LegacyLineValid | src/App.tsx:34-54 | a produced record has valid non-zero coordinates and a non-empty name |
| LegacyParser.LegacyValid | src/App.tsx:19-55 | no more records than data lines; all valid and named |
| LegacyParser.LegacySkipsBlankAndShortLines | src/App.tsx:20-24 | blank lines, and lines with fewer fields than headers, yield nothing |
| LegacyParser.ZipRowIgnoresExtraValues | src/App.tsx:24-29 | extra trailing values beyond the headers do not matter |
| LegacyParser.RowWithoutLatitudeRejected | src/App.tsx:31-34 | a row with neither `siteLatitude` nor `latitude` parses "0" and is rejected |
| LegacyParser.LegacyNeedsCamelCaseLatitude | src/App.tsx:16-35 | headers naming neither `siteLatitude` nor `latitude` give no records |
| LegacyParser.TitleCaseSheetYieldsNothing | src/App.tsx:12-58 | a document headed `Site Latitude` (the other reader's spelling) yields nothing here |
| MapUtils.MaxLatitude | src/utils/mapUtils.ts:40 | the largest latitude is attained by some record and bounds all of them |
| MapUtils.MinLatitude | src/utils/mapUtils.ts:41 | the smallest latitude is attained and bounds all records |
| MapUtils.MaxLongitude | src/utils/mapUtils.ts:42 | the largest longitude is attained and bounds all records |
| MapUtils.MinLongitude | src/utils/mapUtils.ts:43 | the smallest longitude is attained and bounds all records |
| MapUtils.EnvelopeIsExtremes | src/utils/mapUtils.ts:38-46 | the `reduce` over valid records is exactly (max lat, min lat, max lng, min lng) |
| MapUtils.EnvelopeBounds | src/utils/mapUtils.ts:38-46 | each side of the `reduce` is attained by a record, and the box contains every record |
| MapUtils.EnvelopeAttained | src/utils/mapUtils.ts:38-46 | each side of the `reduce` is some record's coordinate |
| MapUtils.EnvelopeContains | src/utils/mapUtils.ts:38-46 | the `reduce` box contains every record |
| MapUtils.EnvelopeInRange | src/utils/mapUtils.ts:38-46 | the box around valid records is well ordered and inside the legal ranges |
| MapUtils.CalculateBoundsNone | src/utils/mapUtils.ts:31-36 | the result is null iff no record passes `validateOrganizationCoordinates` |
| MapUtils.FilterAllValid | src/utils/mapUtils.ts:32 | every record kept by the filter is valid |
| MapUtils.CalculateBoundsPadding | src/utils/mapUtils.ts:48-55 | each side is the valid records' extreme pushed out by 0.1 times that axis's span, clamped to the legal range |
| MapUtils.PadWidens | src/utils/mapUtils.ts:48-55 | padding a well-ordered legal box keeps it well ordered and legal, and only widens it |
| MapUtils.CalculateBoundsContains | src/utils/mapUtils.ts:38-56 | a non-null result has south <= north and west <= east, lies in [-90,90] x [-180,180], and contains every valid record |
| MapUtils.GetMapCenter | src/utils/mapUtils.ts:59-63 | the centre (lng, lat) is equidistant from opposite sides and lies inside any well-ordered box |
| MapUtils.CenterOfBoundsIsValid | src/utils/mapUtils.ts:31-63 | the centre of the fitted box is a legal coordinate |
| MapUtils.LatitudeDirection | src/utils/mapUtils.ts:73 | the letter is N iff lat >= 0, otherwise S |
| MapUtils.LongitudeDirection | src/utils/mapUtils.ts:74 | the letter is E iff lng >= 0, otherwise W |
| MapUtils.FormatCoordinatesRoundTrip | src/utils/mapUtils.ts:72-76 | magnitudes and letters determine the signed coordinates, and the magnitudes are non-negative |
| MapUtils.MirroredLabel | src/utils/mapUtils.ts:73-75 | mirroring a non-zero coordinate flips its letter and keeps its magnitude |
| SearchPanel.TextFields | src/components/SearchPanel/useSearchPanel.ts:16-25 | exactly ten text fields are searched |
| SearchPanel.MatchesSomeField | src/components/SearchPanel/useSearchPanel.ts:15-26 | the `||` chain holds iff some one of the ten lower-cased fields includes the query |
| SearchPanel.FilterOrganizationsSpec | src/components/SearchPanel/useSearchPanel.ts:8-28 | the result is an order-preserving sub-list; a blank query returns the input; otherwise a record is kept iff a lower-cased field includes the lower-cased, untrimmed query |
| SearchPanel.MatchIgnoresCoordinates | src/components/SearchPanel/useSearchPanel.ts:16-25 | coordinates never affect matching |
| SearchPanel.ToLowerKeepsBlank | src/components/SearchPanel/useSearchPanel.ts:9-13 | lower-casing keeps a query blank or non-blank |
| SearchPanel.FilterCaseInsensitive | src/components/SearchPanel/useSearchPanel.ts:9-13 | a query and its lower-cased form select the same records |
| SearchPanel.HasNoResultsIff | src/components/SearchPanel/useSearchPanel.ts:34 | there are no results iff the list is empty, or the query is not blank and matches no record |
| SearchPanel.EmptyMessage | src/components/SearchPanel/useSearchPanel.ts:35 | the no-match text iff the query is a non-empty string, even a whitespace-only one |
| SearchPanel.WhitespaceQueryMessage | src/components/SearchPanel/useSearchPanel.ts:9-35 | a whitespace-only query does not filter, yet selects the no-match message |
| SearchPanel.OrganizationTextCount | src/components/SearchPanel/useSearchPanel.ts:36 | the caption starts with the count in decimal, which reads back as the count |
| SearchPanel.OrganizationTextPlural | src/components/SearchPanel/useSearchPanel.ts:36 | the plural suffix shows iff the count is not 1 |
| OrganizationCard.CardAddressEmptyIff | src/components/OrganizationCard/OrganizationCard.utils.ts:4-14 | the address is empty iff city, state and country are all blank; `hasAddress` iff the address is non-empty |
| OrganizationCard.CardAddressParts | src/components/OrganizationCard/OrganizationCard.utils.ts:4-9 | each non-blank part appears untrimmed in the address |
| OrganizationCard.CardAddressAllPresent | src/components/OrganizationCard/OrganizationCard.utils.ts:4-9 | with all three present, the address is city, state, country in order, separated by ", " |
| OrganizationCard.CardFlags | src/components/OrganizationCard/OrganizationCard.utils.ts:13-16 | `hasMission`, `hasWebsite`, `hasEmail` hold iff the field is non-empty; whitespace counts as present |
| OrganizationCard.CardIgnoresOtherFields | src/components/OrganizationCard/OrganizationCard.utils.ts:3-18 | street, zip, headquarters address and coordinates do not affect the card |
| PopupContent.PopupCopiesFields | src/components/MapView/MapViewPopupContent/MapViewPopupContent.utils.ts:6-9 | name, mission, website and e-mail are the record's own |
| PopupContent.PopupLocation | src/components/MapView/MapViewPopupContent/MapViewPopupContent.utils.ts:11-17 | all four parts empty gives the default; otherwise the non-empty parts joined by ", ", non-empty and containing each part |
| PopupContent.PopupKeepsBlankPart | src/components/MapView/MapViewPopupContent/MapViewPopupContent.utils.ts:11-17 | a whitespace-only part is kept |
| OrganizationPopup.FormatWebsite | src/components/OrganizationPopup.tsx:5-8 | "" iff the website is ""; the link starts with "http"; a website starting with "http" is the link itself, and any other non-empty website gets "https://" in front |
| OrganizationPopup.FormatWebsiteIdempotent | src/components/OrganizationPopup.tsx:5-8 | formatting twice changes nothing |
| OrganizationPopup.FormatWebsiteRecoverable | src/components/OrganizationPopup.tsx:5-8 | the website is recovered from the link |
| OrganizationPopup.PresentIffNotBlank | src/components/OrganizationPopup.tsx:17 | the filter keeps a part iff it is not blank |
| OrganizationPopup.FormatAddressSpec | src/components/OrganizationPopup.tsx:10-20 | the address is "" iff all five parts are blank, and contains every other part |
| OrganizationPopup.FormatAddressMatchesCard | src/components/OrganizationPopup.tsx:10-20 | with blank street and postal code, the popup address equals the card address |
| OrganizationPopup.FormatAddressFromCardParts | src/components/OrganizationPopup.tsx:11-17 | the popup's parts are the card's, between street and postal code |
| OrganizationPopup.PresentAgreesWithHasText | src/components/OrganizationPopup.tsx:17 | the popup's and the card's keep tests agree |
| Pipeline.ReaderTestIsStricter | src/utils/csvParser.ts:50-59 | `validateCoordinates` is `isValidCoordinate` with zero rejected on both axes |
| Pipeline.BoundsOfCheckedRecords | src/utils/mapUtils.ts:31-36 | records passing the reader test are all kept by the map, whose bounds are null iff there are none |
| Pipeline.TransformedRecordsAreFramed | src/utils/csvParser.ts:61-87 | the transformer's records are all framed by the map |
| Pipeline.LegacyRecordsAreFramed | src/App.tsx:12-58 | the legacy reader's records are all framed by the map |

## Left out

- React rendering, hook state and styling: this is UI only. `useMemo` and `useState` become plain functions of the list and the query.
- Mapbox, the DOM and `createMarkerElement`: foreign library calls and side effects.
- `loadData`, the CSV proxy and the environment configuration: network and environment.
- `getDistanceBetweenPoints` and the `toFixed(4)` rendering in `formatCoordinates`: floating-point numerics. `MapUtils.FormatCoordinates` keeps the magnitudes and letters, not the digits.
- `parseFloat` and `isNaN`: `parseFloat` is a parameter, with `None` for NaN. Infinity is not modelled.
- Arithmetic: over `real`, exactly; the 0.1 padding factor is not rounded.
- `toLowerCase`: ASCII only, so other letters are left as they are.
- `trim`: uses the ECMAScript whitespace and line-terminator set, written out.
- Duplicate copies: `SearchPanel.tsx`'s filter and `OrganizationCard.tsx`'s address are identical to the models' sources and are not modelled again.
- Constants whose files are not part of this model are parameters:
  - `PLURAL_SUFFIX`;
  - `EMPTY_STATE_NO_SEARCH_MATCH` and `EMPTY_STATE_NO_ORGANIZATIONS`;
  - `DEFAULT_LOCATION`.
- `DEFAULT_ORGANIZATION_NAME` and `DEFAULT_MISSION` are not modelled: record fields are strings, never null, so those defaults never apply.
- `LegacyParser.ParseDataLines`: its loop body is the method `ParseDataLine`, and each of the source's `continue`s is an early `return []` there.
- `CsvParser.ParseCSV` and `LegacyParser.ParseCsvData` hand their loops over `lines[1..]` to `ParseDataRows` and `ParseDataLines`.
- `PopupContent.PopupLocation`: states "the location is the default" only in the direction "all parts empty". The converse needs `DEFAULT_LOCATION` to differ from every possible join, and that constant is a parameter here.
- `CsvParser.CleanCSVValue`: `undefined` and `null` are both `None`.
- `CsvParser.ZipRowKeys`: a row object is modelled as a map, so JavaScript prototype keys are ignored. A header named `__proto__` creates no own key in the source, but is a key here.
- `CsvParser.ParseNumericValue`: the contract only says which number comes out, in terms of the `parseFloat` parameter.
