# Tourist-facility map of Finistère: a Dafny model of the filter, aggregator and classifier

`geolocalisation.py` reads a semicolon-separated dataset of tourist
facilities and draws them on a folium map. The logic it contains is all in
the loop of `display_map` and in `get_icon`:

- **Postal-code normalisation.** Every space is removed from the postal code
  (`detailidentadressecp`), and the rest is parsed with `int()`. Text that
  `int()` refuses ends the run with an error.
- **Range filter.** A row is kept when its code is in `range(29000, 30000)`.
  The lower bound is included and the upper bound is not.
- **Aggregation.** Each kept row adds its latitude and longitude to running
  sums and increments a counter. The map is centred on the sums divided by
  the count. When no row is kept, that division fails.
- **Classification.** The marker of a kept row goes to the "Gratuit",
  "Payant" or "Tarifs non communiqués" cluster when `tarifentree` equals that
  text exactly. Otherwise it goes to the "Libre participation" layer.
- **Icon colour.** `get_icon` makes the icon red, green or blue for those
  three categories, and black otherwise.

The model is four modules:

- `Results` holds the success-or-error result type.
- `PostalCode` models space removal and `int()`. The literal grammar is an
  optional sign, then digits in which a single `_` may separate two digits.
- `Tariff` maps a category to its destination and its colour.
- `Geolocalisation` holds the pass itself:
  - `DisplayMap` is an imperative method with the same loop and the same
    final division. It stops at the row where `int()` raises, as the uncaught
    exception does.
  - It is proved equal to the specification function `Expected`.
  - `Expected` is built from the kept indices (`KeptIndices`), the coordinate
    sums (`Sum`) and the grouped markers (`Grouped`).
  - Lemmas state what those mean: which rows are kept, where every marker
    goes, in what order, how many markers there are, and where the centre
    lies.

`Examples` replays these properties on concrete rows. For instance,
`"29 200"` reads as 29200, `"30000"` is rejected by the filter, and a
three-row dataset produces a known centre and known groups.

Rows come in already parsed. Each has a postal-code string, the latitude and
longitude as reals, the name used as tooltip, and the price category.

## Model

| member | source | states |
|---|---|---|
| PostalCode.StripSpaces | geolocalisation.py:50 | the result of `''.join(code.split(' '))` holds no space |
| PostalCode.StripSpacesNoSpace | geolocalisation.py:50 | a code without spaces comes out of space removal unchanged |
| PostalCode.StripSpacesAppend | geolocalisation.py:50 | space removal distributes over concatenation |
| PostalCode.StripSpacesKeeps | geolocalisation.py:50 | every character other than a space survives space removal |
| PostalCode.DecimalDigits | geolocalisation.py:50 | the decimal writing of a natural number is non-empty and made only of digits |
| PostalCode.DigitsValue | geolocalisation.py:50 | the value `int()` reads from a run of digits and underscores is below ten to the power of the run's length, since underscores add no digit |
| PostalCode.ParseInt | geolocalisation.py:50 | `int()` succeeds exactly on a well-formed base-10 literal and otherwise fails with the text it was given; a leading `-` gives a value of at most 0, and no `-` gives at least 0 |
| PostalCode.Normalize | geolocalisation.py:49-50 | the postal code is accepted exactly when its space-free text is an integer literal; a refused code reports that space-free text |
| PostalCode.DigitsValueOfDecimalDigits | geolocalisation.py:50 | reading the decimal writing of `n` gives back `n` |
| PostalCode.ParseIntToDecimal | geolocalisation.py:50 | `int(str(n)) == n` for every integer `n` |
| PostalCode.DigitsValueLeadingZero | geolocalisation.py:50 | a leading `0` does not change the value `int()` reads |
| PostalCode.DigitsValueUnderscore | geolocalisation.py:50 | an underscore between digits does not change the value `int()` reads |
| PostalCode.ParseIntPlusSign | geolocalisation.py:50 | a leading `+` changes neither whether `int()` accepts the rest nor the value it reads |
| PostalCode.ZeroPaddedValue | geolocalisation.py:50 | any number of leading zeros before the decimal writing of `n` still reads as `n` |
| PostalCode.ParseIntZeroPadded | geolocalisation.py:50 | `int()` accepts a zero-padded decimal writing of `n` and returns `n`, so `"01000"` is 1000 |
| PostalCode.NormalizeSpaced | geolocalisation.py:49-50 | a code that is the decimal writing of `n` with spaces inserted anywhere normalises to `n` |
| PostalCode.NormalizeIgnoresSpace | geolocalisation.py:50 | inserting a space anywhere in a code does not change its outcome, error included |
| PostalCode.NormalizeRejectsForeignChar | geolocalisation.py:50 | a code holding a letter or other character foreign to integer literals is refused |
| PostalCode.NormalizeRejectsBlank | geolocalisation.py:50 | an empty or all-space code is refused |
| Tariff.DestinationOf | geolocalisation.py:67-74 | a row goes to the Gratuit, Payant or "non communiqués" cluster exactly when its category equals that text, and to the "Libre participation" layer exactly when it equals none of the three |
| Tariff.IconColour | geolocalisation.py:86-93 | the icon colour is red/green/blue/black for the same four cases, and it determines the destination: no other destination has that colour |
| Geolocalisation.Groups.Add | geolocalisation.py:67-74 | adding a marker appends it to its destination only; the other destinations are unchanged and the total grows by one |
| Geolocalisation.AddMarker | geolocalisation.py:67-74 | the if/elif chain on the category puts the marker where `DestinationOf` says |
| Geolocalisation.InRangeDepartment | geolocalisation.py:51 | `InRange`, the test `code in range(29000, 30000)`, holds exactly for the codes whose thousands are 29, that is, department 29 |
| Geolocalisation.MarkerFor | geolocalisation.py:61-66 | the marker of a row has its coordinates, its name as tooltip, its index, and the colour of the destination its category selects |
| Geolocalisation.KeptIndices | geolocalisation.py:48-51 | every kept index refers to a row already read |
| Geolocalisation.AppendKept | geolocalisation.py:56-74 | a kept row adds its coordinates to both sums and its marker to its category's destination |
| Geolocalisation.DisplayMap | geolocalisation.py:44-79 | the first row whose code `int()` refuses ends the run with that row's index and text; when all codes parse, the result is `Expected`: a division-by-zero failure when nothing is kept, otherwise the mean of the kept coordinates as centre and the grouped markers |
| Geolocalisation.KeptIndicesExactly | geolocalisation.py:51 | a row is kept exactly when its parsed code lies in [29000, 30000) |
| Geolocalisation.KeptIndicesIncreasing | geolocalisation.py:48-51 | kept rows are listed in input order, each once |
| Geolocalisation.GroupedMembers | geolocalisation.py:61-74 | a destination holds exactly the markers of the listed rows of its category, each with its row's coordinates, name and the destination's colour |
| Geolocalisation.GroupedSize | geolocalisation.py:66-74 | the destinations together hold one marker per listed row |
| Geolocalisation.GroupedInOrder | geolocalisation.py:48-74 | within a destination, markers keep the order of their rows |
| Geolocalisation.SumAtLeast | geolocalisation.py:59-60 | coordinates all at least `lo` sum to at least `count * lo` |
| Geolocalisation.SumAtMost | geolocalisation.py:59-60 | coordinates all at most `hi` sum to at most `count * hi` |
| Geolocalisation.MeanWithin | geolocalisation.py:77-78 | the mean of the listed coordinates lies within any bounds that hold for each of them |
| Geolocalisation.NoRowKeptIff | geolocalisation.py:51-78 | the run fails with a division by zero exactly when no code lies in the range |
| Geolocalisation.ExpectedGroupsAreGrouped | geolocalisation.py:66-74 | the groups of a successful run are those of the kept rows |
| Geolocalisation.ExpectedGroupMembers | geolocalisation.py:51-74 | every kept row, and no other, has its marker in the destination of its category, with that destination's colour |
| Geolocalisation.ExpectedGroupSize | geolocalisation.py:56-74 | the number of markers equals the number of kept rows, the final `compteur` |
| Geolocalisation.ExpectedGroupOrder | geolocalisation.py:48-74 | each destination lists its markers in input order |
| Geolocalisation.CentreIsMean | geolocalisation.py:77-79 | the centre of a successful run is the sum of the kept coordinates divided by their count, which is positive |
| Geolocalisation.ExpectedCentreWithin | geolocalisation.py:77-79 | the centre lies within any bounds that hold for every kept row |
| Geolocalisation.KeptIndicesExtend | geolocalisation.py:48-51 | rows read later do not change which earlier rows are kept |
| Geolocalisation.SumExtend | geolocalisation.py:59-60 | rows read later do not change the sums over earlier rows |
| Geolocalisation.GroupedExtend | geolocalisation.py:66-74 | rows read later do not change the markers of earlier rows |
| Geolocalisation.AppendRejectedRow | geolocalisation.py:51 | a row whose code parses but lies outside the range leaves the outcome unchanged |
| Examples.NormalizeSpacedExamples | geolocalisation.py:49-50 | `"29 200"` reads as 29200, and `"75 001"` as 75001 |
| Examples.NormalizeUnderscoreExample | geolocalisation.py:50 | `"29_200"` reads as 29200, since `int()` accepts a single underscore between digits |
| Examples.NormalizeDoubleUnderscore | geolocalisation.py:50 | `"29__200"` is refused |
| Examples.NormalizeTrailingUnderscore | geolocalisation.py:50 | `"29200_"` is refused |
| Examples.TariffExamples | geolocalisation.py:67-93 | "Libre participation", the empty category and the lower-case "gratuit" all go to the "Libre participation" layer in black; "Tarifs non communiqués" is blue |
| Examples.RangeBoundaries | geolocalisation.py:51 | 29000 and 29999 are kept; 28999 and 30000 are not |
| Examples.UpperBoundaryCode | geolocalisation.py:49-51 | `"30000"` parses to 30000, the first code past the range |
| Examples.LastKeptCode | geolocalisation.py:49-51 | `"29999"` parses to 29999, the last code in the range |
| Examples.ScenarioKept | geolocalisation.py:48-51 | with codes 29200, 30000 and 29999, rows 0 and 2 are kept |
| Examples.ScenarioGroups | geolocalisation.py:56-74 | those two rows sum to 96.6 and -8.6, with a red "Gratuit" marker and a black "Libre participation" marker |
| Examples.ScenarioOutcome | geolocalisation.py:44-79 | the three-row dataset is centred on (48.3, -4.3) with those two markers |
| Examples.ScenarioWithDatasetCodes | geolocalisation.py:44-79 | the same outcome with the codes written `"29 200"`, `"30000"` and `"29999"` |

## Left out

- Downloading the dataset and caching it in `geolocalisation.csv` (lines 15-20) are left out because they are network and file I/O.
- Splitting the file into records with `csv.DictReader` (line 44) is left out. The model starts from parsed rows.
- A record that lacks one of the columns read (a `KeyError`) is not modelled. Every row carries all five fields.
- `float()` on the coordinate columns (lines 59-60) is not modelled, because it is floating point. The coordinates are exact reals, so the sums and the mean carry no rounding, and a coordinate `float()` would refuse is outside the model.
- The folium objects are not modelled: the map, minimap, feature groups, clusters, layer control, `Icon`, `IFrame` and `Popup` (lines 21-41 and 62-66). A marker is reduced to its position, colour, tooltip and the index of its row.
- `render_html` (lines 62 and 96-104) is not part of this model. It reads a jinja template from disk. The marker's row index stands for the popup built from that row. Rendering is assumed to succeed: when `templates/display_row.html` is missing or broken, the script fails at the first kept row, and `DisplayMap` does not model that failure.
- The module-level call and `m.save("index.html")` (lines 106-107) are left out because they are I/O.
- PostalCode.ParseInt: accepts only an ASCII sign, ASCII digits and underscores. It never sees a space, because space removal comes first. `int()` also strips surrounding whitespace other than ' ' and accepts non-ASCII decimal digits; codes that use those are outside this model.
- PostalCode.ParseInt: does not model the limit on integer-string length that Python 3.11 and later apply. There, `int()` raises `ValueError` on a literal of more than 4300 digits, leading zeros included, and the script stops. The model reads the value of such a literal instead. That value lies outside the range, unless leading zeros pad an in-range code (4296 zeros followed by `29200`, say); in that case the model keeps a row at which the script stops.
- The "Libre participation" cluster created on line 39 never receives a marker, so it is not modelled.

## Findings

None recorded. Two behaviours of the source are modelled as written rather than corrected:

- The division by zero when no row is kept is reported as the `NoRowKept` error.
- The "Libre participation" markers go to the layer on line 74 rather than to its cluster.
