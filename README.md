# EV charging-station locator — a Dafny model

This project models the charging-station part of `app.js`, a small Bootstrap front end for Zurich. The locator downloads the Swiss Federal Office of Energy's GeoJSON dataset of public charging points once per page (`BFE_CACHE`). It turns each feature into a station with WGS84 coordinates, a title and a one-line address (`extractStationInfo`). It then shows the five stations nearest a point (`loadChargingStationsNearest`). The point is either given directly or found by geocoding a four-digit Swiss postal code (`loadChargingStationsByZip`).

Modules:

- `Wrappers` defines `Option` and `Result`.
- `Text` covers the JavaScript string operations:
  - the white-space class `\s`, `trim` and `replace(/\s+/g, "")`;
  - `replace(",", ".")`, which replaces only the first comma;
  - `filter` and `join` over strings.
- `Values` covers JavaScript numbers (with NaN and the infinities), the JSON values of a coordinate array, `flat(3)`, `String(v)` and `toNum`.
- `Stations` is `extractStationInfo`:
  - alias tables for the inconsistently named properties;
  - the title, the address and the choice of coordinates;
  - the filter of listable stations.
- `Ranking` covers the `_km` keys, the stable ascending sort and `slice(0, 5)`.
  - The sort is an in-place insertion sort on an array, proved equal to a reference stable sort.
  - The reference order is proved to be the only order that is ascending with ties in dataset order, so the result does not depend on the engine's sort algorithm.
- `Locator` is the page state:
  - class `Locator` holds `BFE_CACHE` and a log of the fetches made;
  - `loadBfeGeo`, the search around a point, the postal-code gate and the geocoding step.
- `Examples` works concrete inputs through the model:
  - `toNum("1 234,5")`, and `toNum` of grouped digits with a decimal comma such as "2 600 100,5";
  - padded and malformed postal codes;
  - WGS84 and LV95 point geometries.

Inputs from outside the model:

- **Network.** A fetch is not performed. Each method that fetches takes the reply as a parameter. The reply is a rejected promise, or a status plus a body that parses or does not. The method appends the request to `Locator.requests`.
- **Floating point.** `Number`, `parseFloat`, `String(number)`, `lv95ToWgs` and `haversineKm` are left uninterpreted. They are the fields of a `Numerics` value that the operations take as a parameter.
- **Postal code.** The input field's value is a parameter (`Option<string>`; `None` is an empty jQuery selection).

Behaviour of `app.js` that the model keeps as written:

- **LV95 detection.** A geometry is read as LV95 easting and northing when `x > 1000 || y > 1000`: a signed test on either value, not a test that both magnitudes exceed 1000.
- **Address lines.** They are only examined for blankness (`s.trim().length > 0`), never trimmed. Their parts are joined unchanged.
- **Cache.** It has no single-flight guard: two concurrent first loads both fetch. A failed load leaves `BFE_CACHE` null, so the next call fetches again.
- **Geocoding errors.** A geocoding reply that is not an array, or is an empty array, is "not found". A `null` first match throws. A match whose `lat` or `lon` is missing or unparseable is not rejected: `parseFloat` gives NaN and the search goes ahead. Every `_km` is then NaN, the comparator reads every pair as equal, and the stable sort leaves the first five listed stations in dataset order (`Ranking.NonFiniteQueryKeepsDatasetOrder`).
- **Error content.** A failed dataset download carries only its HTTP status (`BFE GeoJSON HTTP <status>`), not an excerpt of the body.
- **Result size.** The number of stations shown is the literal 5 (`Ranking.TopN`), not a configurable value.
- **Invalid postal code.** It is reported as a notice followed by a return, before any fetch. It is not thrown.

## Model

| member | source | states |
|---|---|---|
| `Text.Trim` | app.js:248 | `trim` removes white space from both ends: the result is no longer than the input and starts and ends with a non-space character |
| `Text.TrimInfix` | app.js:196 | what `trim` keeps is the infix between an all-space prefix and an all-space suffix; it is empty exactly when the string is all white space |
| `Text.Leading` | app.js:248 | the count of leading characters removed by `trim` covers only white space and stops at the first non-space character |
| `Text.Trailing` | app.js:248 | the count of trailing characters removed by `trim` covers only white space and stops at the last non-space character |
| `Text.TrimFixes` | app.js:248 | a string that neither starts nor ends with white space is its own trim |
| `Text.StripSpaces` | app.js:157 | `replace(/\s+/g, "")` leaves no white-space character and never lengthens the text |
| `Text.StripSpacesAppend` | app.js:157 | deleting white space distributes over concatenation, so the characters kept stay in order |
| `Text.StripSpacesFixes` | app.js:157 | text without white space is left unchanged |
| `Text.StripSpacesCount` | app.js:157 | every non-space character survives exactly as often as it occurred; white space occurs zero times afterwards |
| `Text.IndexOf` | app.js:157 | the position found holds the character and no earlier position does; it is the length exactly when the character is absent |
| `Text.ReplaceFirst` | app.js:157 | `replace(",", ".")` keeps the length, changes nothing when there is no comma, and otherwise changes only the first comma |
| `Text.ReplaceFirstCount` | app.js:157 | replacing the first occurrence removes exactly one `from` and adds exactly one `to` when there is one, none otherwise |
| `Text.NonEmpty` | app.js:195 | `filter(Boolean)`: a string is kept exactly when it is in the input and is not empty; the result is no longer than the input |
| `Text.NonBlank` | app.js:196 | `filter(s => s.trim().length > 0)`: a string is kept exactly when it is in the input and is not all white space; the result is no longer than the input |
| `Text.Join` | app.js:195-196 | `join(sep)`: no elements give "", one element gives itself, and two or more start with the first element followed by the separator |
| `Values.Flat` | app.js:176 | `flat(0)` changes nothing, and a coordinate array that starts with a number still starts with that number after `flat(depth)` |
| `Values.ToStr` | app.js:157 | `String(v)` of a string is the string itself; an array of n >= 1 elements stringifies with at least n - 1 commas |
| `Values.ArrayToStr` | app.js:157 | `String(array)` puts a comma between neighbours, and a one-string array reads as that string |
| `Values.ToNum` | app.js:157 | `toNum` returns a number unchanged, reads `null` as the text "", and hands `Number` a string without white space or comma exactly as it is |
| `Values.NumberTextClean` | app.js:157 | text without white space and without a comma is left unchanged by the cleaning |
| `Values.FlatKeepsLeaves` | app.js:176 | `flat(depth)` never loses, duplicates or reorders a non-array value, whatever the depth |
| `Values.FlatComplete` | app.js:176 | for coordinates nested at most three levels (Point to MultiPolygon), `flat(3)` is exactly the list of numbers in document order |
| `Values.NumberText` | app.js:157 | the text `toNum` hands to `Number` contains no white space |
| `Values.NumberTextCounts` | app.js:157 | `toNum`: no white space remains; of k >= 1 commas, k - 1 remain and one point is added; every other character keeps its count; a number is returned unchanged |
| `Values.NumberTextInOrder` | app.js:157 | the cleaned text equals the stripped text position by position, except that the first comma became a point |
| `Stations.FirstTruthyIndex` | app.js:184-194 | the alias chosen by an `a || b || c` chain is truthy, and every alias before it is not |
| `Stations.FirstTruthyChoice` | app.js:184-194 | the chain yields the value of the first alias with a non-empty value, and "" exactly when no alias has one |
| `Stations.Title` | app.js:190 | the title is never empty, and it is either a property's value or "Ladestation" |
| `Stations.TitleChoice` | app.js:190 | the title is never empty: `name`, else `title`, else `titel`, else "Ladestation" |
| `Stations.Line` | app.js:195 | `[a, b].filter(Boolean).join(" ")` is empty exactly when both parts are, and starts with `a` |
| `Stations.StreetLine` | app.js:191-195 | the street line starts with the street and is empty exactly when no street alias and no house-number alias carries a value |
| `Stations.LocalityLine` | app.js:193-195 | the locality line starts with the postal code and is empty exactly when no postal-code alias and no locality alias carries a value |
| `Stations.Address` | app.js:195-196 | the address is empty exactly when both lines are blank, and starts with the street line whenever that line is shown |
| `Stations.LineShape` | app.js:195 | `[a, b].filter(Boolean).join(" ")` is `a + " " + b` when both are non-empty, otherwise the one that is non-empty, otherwise "" |
| `Stations.AddressShape` | app.js:191-196 | the address is street line, ", ", locality line when both are non-blank; only the non-blank one otherwise; "" when neither is; the street line always comes first |
| `Stations.AddressEmptyWithoutFields` | app.js:191-196 | without street, house number, postal code or locality the address is "", not a dangling separator |
| `Stations.AddressSeparators` | app.js:195-196 | when no value contains a comma, the address holds one comma if both lines are shown and none otherwise, and never starts or ends with a comma |
| `Stations.FromGeometry` | app.js:175-182 | the geometry gives a pair exactly when it has a coordinate array with at least two entries after `flat(3)`; the pair is either the LV95 conversion of the first two entries or those entries as longitude and latitude |
| `Stations.FromProperties` | app.js:183-189 | the E/N properties give a pair exactly when both numbers are finite and one exceeds 1000; the pair is their LV95 conversion |
| `Stations.Extract` | app.js:171-198 | `extractStationInfo` sets latitude and longitude together or leaves both `undefined`, never gives an empty title, and gives an empty address exactly when both address lines are blank |
| `Stations.GeometryChoice` | app.js:175-181 | for a GeoJSON geometry with at least two numbers, the first two are used: converted from LV95 exactly when one exceeds 1000, otherwise taken as longitude then latitude |
| `Stations.ExtractCoordinates` | app.js:171-198 | the geometry pair is used when finite; otherwise the E/N properties when both are finite and one exceeds 1000; otherwise whatever the geometry left (`undefined` without it); title and address are independent of the coordinates |
| `Stations.Listed` | app.js:207 | a listed station has both coordinates and a non-empty title |
| `Stations.ListedTrimmed` | app.js:207 | the filter holds exactly when both coordinates are finite and the title is not empty once trimmed |
| `Stations.Extracted` | app.js:206 | `feats.map(extractStationInfo)` has one station per feature, the i-th being the extraction of the i-th feature |
| `Stations.Keep` | app.js:206-207 | the filter keeps a station exactly when it is in the input and passes the test, and never lengthens the list |
| `Stations.KeepAppend` | app.js:207 | the filter works element by element: filtering two lists one after the other gives the two filtered lists one after the other, so order and repetitions are kept |
| `Stations.ExtractedAppend` | app.js:206 | `map(extractStationInfo)` works feature by feature: mapping two runs of features gives the two mapped runs one after the other |
| `Stations.ListedStationsAppend` | app.js:206-207 | the listed stations of two runs of features are those of the first run followed by those of the second, so dataset order is kept |
| `Stations.ListedStations` | app.js:206-207 | the filtered list is no longer than the dataset and every station in it has finite coordinates and a non-blank title |
| `Stations.ListedStationsMembers` | app.js:206-207 | a station is listed exactly when it is the extraction of some feature and passes the filter; the list is empty exactly when no feature passes |
| `Ranking.Key` | app.js:209 | `_km` is `haversineKm` from the query point (first) to the station for a finite query point; for a NaN or infinite one every station gets the same key |
| `Ranking.Ranked` | app.js:209 | one entry per listed station, in list order: the k-th entry is the k-th station with its `_km` key `Key(q, station)` and position k; for a non-finite query point the list is already sorted |
| `Ranking.TopNearest` | app.js:210 | the stations shown number min(5, listed stations) |
| `Ranking.SortByDistance` | app.js:210 | the in-place sort permutes the array and leaves it ascending by `_km`, ties in their original order |
| `Ranking.InsertAt` | app.js:210 | one insertion step extends the sorted prefix by one entry and permutes the array |
| `Ranking.Insert` | app.js:210 | inserting into a list adds exactly one entry |
| `Ranking.SortedByDistance` | app.js:210 | the reference stable sort keeps the length of the list |
| `Ranking.InsertOrdered` | app.js:210 | inserting into an ordered list keeps it ordered and adds exactly the inserted entry to its multiset |
| `Ranking.SortedByDistanceOrdered` | app.js:210 | the reference sort of entries with distinct positions is ordered and a permutation of its input |
| `Ranking.InOrderUnique` | app.js:210 | two orderings of the same entries that are both ascending with ties in list order are equal, so the stable sort's result is unique |
| `Ranking.PrefixOfSorted` | app.js:210 | the first n entries of a sorted permutation are candidates, are in order, and come before every candidate left out |
| `Ranking.TopNearestProperties` | app.js:206-216 | the stations shown number min(5, listed stations); each is a listed candidate; they are in order; no station left out is nearer than, or as near as and earlier than, one shown; there are none exactly when no station is listed |
| `Ranking.NonFiniteQueryKeepsDatasetOrder` | app.js:209-210 | with a NaN or infinite query point, the stations shown are the first five listed ones in dataset order |
| `Ranking.Keyed` | app.js:209 | the array of entries holds each listed station, in list order, with its `_km` key and its position |
| `Ranking.SortedIsReference` | app.js:210 | any ordered permutation of the candidates is the reference stable order |
| `Ranking.Select` | app.js:206-210 | `map`, `filter`, `forEach` and `sort` on an array, then `slice(0, 5)`, yield exactly the reference top five: min(5, listed) entries, ascending, ties in dataset order, empty exactly when nothing is listed |
| `Locator.Download` | app.js:162-167 | a download succeeds exactly when the status is 2xx and the body parses to a non-null value; it then yields `features`, or `[]` when that is not an array; a non-2xx status fails with that status |
| `Locator.LoadedFromCache` | app.js:161 | only an empty cache can lead to a failed load; with a filled cache, every dataset reply gives the cached features |
| `Locator.NearestResult` | app.js:204-216 | a search fails exactly when the load fails, which needs an empty cache and carries the download's error; a list shown holds 1 to 5 stations |
| `Locator.NearestResultCases` | app.js:204-242 | a search fails exactly when the load fails and reports "no stations" exactly when nothing is listed; otherwise it shows 1 to 5 listed stations in order; with a filled cache the dataset reply is irrelevant |
| `Locator.ZipGate` | app.js:248-249 | a postal code is accepted exactly when the trimmed value is four ASCII digits; the accepted code is that trimmed value |
| `Locator.ZipGateIdempotent` | app.js:248-249 | an accepted code passes the gate again unchanged |
| `Locator.ParseCoordinate` | app.js:260 | a string `lat`/`lon` is handed to `parseFloat` as it is; a missing one as "undefined" |
| `Locator.Geocoded` | app.js:256-260 | geocoding yields a point exactly for a 2xx, parseable, non-empty array whose first entry is not null; "not found" exactly for a 2xx reply whose value is not an array or is empty; a non-2xx status is a failure; the point is `parseFloat` of the first match's `lat`/`lon` |
| `Locator.Locator.constructor` | app.js:142 | at page load the cache is empty and nothing has been fetched |
| `Locator.Locator.LoadBfeGeo` | app.js:160-168 | with a filled cache, the cached features and no fetch; otherwise exactly one dataset fetch, with success cached and returned and failure storing nothing; a filled cache never changes |
| `Locator.Locator.ChargingStationsNearest` | app.js:201-243 | the outcome is the load error, "no stations", or the reference top five of the loaded dataset; fetches and cache as for `loadBfeGeo` |
| `Locator.Locator.ChargingStationsByZip` | app.js:246-268 | an invalid code is turned away before any fetch and changes nothing; a valid one logs one geocoding fetch with the code; a failed geocode or "not found" leaves the cache alone; a point leads to the search around it, adding a dataset fetch only when the cache was empty, keeping a filled cache and filling an empty one exactly when the download succeeds |
| `Locator.CachedSearchScenario` | app.js:161 | after a successful load, a second search with the network down makes no fetch and shows the same result: one fetch in all |
| `Locator.RetryAfterFailureScenario` | app.js:163 | a failed download (HTTP 503) is not cached: the next search fetches again and succeeds, two fetches in all |
| `Examples.NumberTextExample` | app.js:157 | `toNum("1 234,5")` hands `Number` the text "1234.5" |
| `Examples.GroupedDecimal` | app.js:157 | for any digit groups a, b, c, d, `toNum` of "a b c,d" hands `Number` "abc.d"; "2 600 100,5" becomes "2600100.5" |
| `Examples.ZipGateAcceptsPadded` | app.js:248-249 | " 8400 " is trimmed and accepted as "8400" |
| `Examples.ZipGateRejects` | app.js:248-252 | "123", "12345", "abcd" and a missing value are turned away |
| `Examples.ExtractWgsPoint` | app.js:175-197 | a point `[x, y]` with neither value above 1000 and no properties gives latitude y, longitude x, title "Ladestation" and an empty address |
| `Examples.ExtractLv95Point` | app.js:175-197 | a point `[E, N]` with one value above 1000 is converted with `lv95ToWgs`, and a finite conversion is kept |

## Left out

- Floating point: `Number`, `parseFloat`, `String(number)`, the LV95 polynomial and the haversine formula are uninterpreted functions, so no numeric accuracy is stated. A haversine distance is assumed to be a real number; NaN from finite inputs is not modelled.
- Property values are modelled as strings (`map<string, string>`). Numeric, boolean or object values in `properties` are not modelled. So `toNum` of a numeric property and the truthiness of `0` or `false` in the alias chains are left out.
- Features that are `null` or not objects (where `extractStationInfo` would throw or read `{}`) are not modelled. Every feature is an object whose `geometry.coordinates` is an array or absent.
- `Ranking.Key`: for a query point that is not finite, `app.js` stores `_km = NaN` on every station and the page shows "NaN km". The model stores the key 0 instead. The order is the same, because every comparison is a tie either way. But every `km` of a result entry is then 0, not NaN.
- `Examples.ExtractLv95Point`: requires the conversion's result to be finite, because `lv95ToWgs` is uninterpreted.
- The URL of the geocoding request, the `Accept` headers and `encodeURIComponent` are not modelled. The log records the postal code only.
- `Locator.NearestResultCases`: states that the shown stations are listed and in order, not the full optimality. Optimality is stated by `Ranking.TopNearestProperties`, to which the outcome is tied.
- DOM, jQuery, toasts, the loader animation and the focus on the input field are not modelled. The outcome datatypes stand for what is shown.
- Leaflet markers and map (`ensureMap`, `setMarkers`, `clearMarkers`) are not modelled.
- `fmt.format` of the distances is not modelled.
- Concurrency is not modelled. Each `await` is a step of a sequential method, so interleaved searches and the missing single-flight guard are outside the model.
- The cat picture, Bitcoin price and weather features of `app.js` are not modelled.
