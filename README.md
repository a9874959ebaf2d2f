# Stock-count export: timestamp normalisation and row transforms

A Dafny model of the per-row export transform of the logitrack stock-count
report. Its behaviour comes from the two scripts that reproduce the
application's export logic (`verify_export.py`, `verify_dates_mixed.py`) and
from the string clean-up in `debug_dates_mixed.py`.

- **Query result.** Count rows joined with their session, newest id first.
  The model takes this as an input sequence of `QueryRow` values (`ExportRules`).
- **Frame.** The pandas DataFrame is a class, `Frames.Frame`. It holds
  labelled columns of equal height, and its methods assign, delete, scrub and
  re-project columns in place, as the scripts do.
- **Per-cell rules.** These are functions in `ExportRules`:
  - the username falls back to the session owner;
  - the system quantity comes from the master map;
  - the counted quantity is coerced to an integer, 0 when it does not read as one;
  - the difference exists only when there is a system quantity;
  - the timestamp is read as a UTC instant and rendered as Bogota wall-clock text.
- **Timestamps** (`Timestamps`, `Calendar`). Four layouts are accepted:
  `YYYY-MM-DD HH:MM:SS`, `YYYY-MM-DDTHH:MM:SS.fffZ`, `YYYY-MM-DDTHH:MM:SSZ`
  and the `isoformat()` layout `YYYY-MM-DDTHH:MM:SS.ffffff`. They are tried in
  order and have different lengths, so at most one of them reads a string.
  - The reading is taken in its own zone: UTC for a `Z` value, and
    `Zones.naive` for a value without `Z`. Then it is moved to `Zones.target`.
    Bogota is a fixed offset of −05:00 with no daylight saving.
  - Moving a reading is calendar arithmetic: one day is borrowed or carried,
    across month and year ends, leap years included.
  - `strftime("%Y-%m-%d %H:%M:%S")` drops the sub-second digits.
  - pandas' 64-bit nanosecond range is modelled: an instant outside it is NaT.
  - `NormalizeOrKeep` is the `converted.fillna(original)` fallback of
    `verify_dates_mixed.py`. In `verify_export.py` a value that does not
    convert is left missing instead.
- **Sanitiser** (`Sanitizer`). Every character in 0x00–0x08, 0x0B, 0x0C or
  0x0E–0x1F of a text cell becomes one space. Tab, LF and CR stay.
- **T/Z clean-up** (`IsoCleanup`). `.str.replace('T', ' ').str.replace('Z', '')`.
- **The two scripts** are methods on the frame: `VerifyExport.TestExportLogic`
  and `VerifyDatesMixed.TestMixedDates`. Each is proved against a row-by-row
  description of the sheet it leaves (`Shows`, `MixedShows`). The scripts'
  asserts are lemmas about that description.

**Naive timestamps.** Both scripts call `pd.to_datetime(..., utc=True)`.
Because of that, a value without `Z`, such as `2025-11-28 15:09:54`, is read
as UTC and moved five hours back to `2025-11-28 10:09:54`. The model follows
the code: `Timestamps.AsWritten` is `Zones(Bogota, 0)`.

A naive value could instead be read as Bogota wall-clock time that only needs
reformatting. The comment "maybe already converted?" at debug_dates.py:13
shows the question was open. That policy is `Timestamps.NaiveLocal` (`Zones(Bogota, Bogota)`), and the model
states both. Under `AsWritten`, converting an exported value again moves it
five more hours (`TimestampExamples.AsWrittenNotIdempotent`). Under
`NaiveLocal`, converting twice is converting once
(`Timestamps.NaiveLocalIdempotent`). Which policy is right is a product
decision, so it is flagged here and not listed as a defect.

## Model

| member | source | states |
|---|---|---|
| `Timestamps.ParseIsSomeLayout` | verify_dates_mixed.py:105 | a string parses exactly when one of the four layouts reads it, and then to that layout's reading |
| `Timestamps.LayoutsExclusive` | verify_dates_mixed.py:105 | no string is read by two layouts, so the per-value format choice does not depend on order or on other rows |
| `Timestamps.ParseIsRendering` | verify_dates_mixed.py:105 | every accepted string is exactly the rendering of its reading in one of the layouts (nothing looser is accepted) |
| `Timestamps.ParseRender` | verify_dates_mixed.py:105 | rendering a valid reading in any layout and parsing it back loses only the sub-second digits that layout does not show |
| `Timestamps.ParseLength` | verify_dates_mixed.py:105 | only strings of length 19, 20, 24 or 26 that open with four digits and a dash parse, so neither the empty string nor `INVALID-DATE-STRING` (19 characters, opening with `I`) does |
| `Timestamps.ParseInstant` | verify_dates_mixed.py:105 | the value converts exactly when it parses and its instant, the reading less its zone's offset, lies in pandas' 64-bit nanosecond range; a converted instant is a valid date |
| `Timestamps.PandasRangeYears` | verify_dates_mixed.py:105 | every representable instant lies in the years 1677 to 2262 |
| `Timestamps.PandasBoundsAsDates` | verify_dates_mixed.py:105 | the range ends are 1677-09-21 00:12:43.145224193 and 2262-04-11 23:47:16.854775807 |
| `Timestamps.LocalText` | verify_dates_mixed.py:107 | an instant renders as `YYYY-MM-DD HH:MM:SS` export text |
| `Timestamps.LocalTextMeaning` | verify_dates_mixed.py:107 | that text reads back as the instant plus the target offset, to the whole second, with no `Z` |
| `Timestamps.Normalize` | verify_dates_mixed.py:105-107 | a value gives export text exactly when `ParseInstant` converts it |
| `Timestamps.NormalizeMeaning` | verify_dates_mixed.py:105-107 | the export text reads back as the raw reading, moved out of its own zone and into the target zone, sub-seconds dropped |
| `Timestamps.AsWrittenMinusFiveHours` | verify_dates_mixed.py:100-107 | as written, every converted value, naive or `Z`, is its reading minus exactly five hours |
| `Timestamps.NormalizeOrKeep` | verify_dates_mixed.py:102-108 | a value that does not convert comes back verbatim; one that does comes back as its `Normalize` text, which is export text |
| `Timestamps.ExportTextHasNoMarkers` | verify_dates_mixed.py:107 | export text holds no `T` and no `Z` |
| `Timestamps.FormatDropsNano` | verify_dates_mixed.py:107 | `%S` truncates: the sub-second part never shows |
| `Timestamps.ParseFormat` | verify_dates_mixed.py:107 | export text parses back (naive layout) to the formatted reading with its sub-seconds dropped |
| `Timestamps.FormatParse` | verify_dates_mixed.py:107 | text already in the export layout is its own rendering |
| `Timestamps.NaiveLocalOnlyReformats` | debug_dates.py:13 | when naive values are taken as target wall clock, a naive value is only reformatted, never moved |
| `Timestamps.NaiveLocalIdempotent` | debug_dates.py:13 | under that policy, converting a converted-or-kept value again changes nothing |
| `Calendar.PrevDay` | verify_dates_mixed.py:107 | the previous calendar day, borrowing across month and year ends: a valid date whose day number is one less, same time of day |
| `Calendar.NextDay` | verify_dates_mixed.py:107 | the next calendar day, carrying across month and year ends: a valid date whose day number is one more |
| `Calendar.Shift` | verify_dates_mixed.py:107 | moving a reading by less than a day gives a valid reading within a year of it, same sub-second part |
| `Calendar.ShiftMovesBy` | verify_dates_mixed.py:107 | `Shift` moves the epoch seconds by exactly the offset |
| `Calendar.ShiftInverse` | verify_dates_mixed.py:107 | shifting back undoes shifting forth |
| `Calendar.EpochSecondsInjective` | verify_dates_mixed.py:107 | two valid readings with the same epoch seconds and sub-second part are equal |
| `Calendar.DayNumberInjective` | verify_dates_mixed.py:107 | distinct valid dates have distinct day numbers, leap years included |
| `TimestampExamples.IsoMillisZuluConverts` | verify_dates_mixed.py:62 | `2025-11-28T20:09:33.987Z` becomes `2025-11-28 15:09:33` under either naive policy |
| `TimestampExamples.NaiveAsWrittenConverts` | verify_dates_mixed.py:66 | as written, `2025-11-28 15:09:54` becomes `2025-11-28 10:09:54` |
| `TimestampExamples.NaiveLocalKeepsWallClock` | debug_dates.py:13 | with naive values taken as Bogota time, `2025-11-28 15:09:54` stays as it is |
| `TimestampExamples.AsWrittenNotIdempotent` | verify_dates_mixed.py:105-107 | as written, a second pass over an exported value moves it five more hours |
| `TimestampExamples.LeapDayBorrow` | verify_dates_mixed.py:107 | `2024-03-01T03:30:00Z` becomes `2024-02-29 22:30:00`: the day borrow lands on the leap day |
| `TimestampExamples.IsoMicrosExported` | verify_dates_mixed.py:44 | an `isoformat()` value with microseconds is read as UTC, moved five hours back, microseconds dropped |
| `TimestampExamples.ThirdProbeValueConverts` | debug_dates_mixed.py:10 | `2025-11-28T20:04:12.544Z` converts to its instant, not NaT |
| `TimestampExamples.FourthProbeValueConverts` | debug_dates_mixed.py:11 | `2025-11-28 15:04:11` converts to its instant |
| `TimestampExamples.FifthProbeValueConverts` | debug_dates_mixed.py:12 | `2025-11-28T15:00:00Z` converts to its instant |
| `TimestampExamples.EmptyKept` | verify_dates_mixed.py:53-56 | the empty string does not convert and comes back as the empty string |
| `TimestampExamples.InvalidKept` | verify_dates_mixed.py:47-50 | `INVALID-DATE-STRING` does not convert and comes back verbatim |
| `Sanitizer.Sanitize` | verify_export.py:96-99 | same length; each character is replaced by one space if it is in the class, kept otherwise |
| `Sanitizer.SanitizeIsClean` | verify_export.py:96-99 | no character of the class survives |
| `Sanitizer.SanitizeFixesExactlyClean` | verify_export.py:96-99 | a string is left unchanged exactly when it holds no character of the class |
| `Sanitizer.SanitizeIdempotent` | verify_export.py:96-99 | scrubbing twice is scrubbing once |
| `Sanitizer.SanitizeKeepsWhitespace` | verify_export.py:96 | tab, LF and CR are kept |
| `Sanitizer.SanitizeChangesOnlyControls` | verify_export.py:96-99 | a position changes exactly when it holds a character of the class, and then to a space |
| `Sanitizer.SanitizeConcat` | verify_export.py:96-99 | the scrub works character by character, so it distributes over concatenation |
| `IsoCleanup.Replace` | debug_dates_mixed.py:35 | `str.replace` with a one-character target: the result length grows by the substitute's length less one per occurrence, and the target does not survive unless it is in the substitute |
| `IsoCleanup.StripIsoMarkers` | debug_dates_mixed.py:35 | the cleaned value holds no `T` and no `Z`, and its length is the input's less its `Z`s |
| `IsoCleanup.StripIsKept` | debug_dates_mixed.py:35 | the clean-up equals the one-pass reference: drop every `Z`, turn every `T` into a space |
| `IsoCleanup.StripKeepsOrder` | debug_dates_mixed.py:35 | every non-`Z` character keeps its order, at its index less the `Z`s before it; a `T` there becomes a space |
| `IsoCleanup.StripIdempotent` | debug_dates_mixed.py:35 | cleaning a cleaned value changes nothing |
| `IsoCleanup.StripFixesUnmarked` | debug_dates_mixed.py:35 | a value with no `T` and no `Z` is unchanged |
| `IsoCleanup.CleansIsoMillisZ` | debug_dates_mixed.py:9 | `2025-11-28T20:09:33.987Z` cleans to `2025-11-28 20:09:33.987` |
| `IsoCleanup.KeepsNaiveValue` | debug_dates_mixed.py:8 | `2025-11-28 15:09:54` is unchanged |
| `Frames.Frame.constructor` | verify_export.py:65 | a frame with the given labels, columns and height, all columns that height, each label once |
| `Frames.Frame.Assign` | verify_export.py:78-84 | `df[c] = v` replaces column `c`, or appends it after the others; labels stay in step with columns |
| `Frames.Frame.Delete` | verify_export.py:85 | `del df[c]` drops the column and its label, the others in order; labels stay in step with columns and distinct |
| `Frames.DeleteKeepsLabels` | verify_export.py:85 | deleting a label from the list and its column from the data keeps the two in step, and keeps the labels distinct |
| `Frames.Frame.SanitizeText` | verify_export.py:96-99 | every text cell of every column is scrubbed, every other cell kept; labels and height unchanged |
| `Frames.Frame.Reorder` | verify_export.py:102-110 | afterwards the labels are exactly `order`, each once when `order` names each once; a column already present keeps its cells, a missing one is all missing values |
| `Frames.SanitizeCell` | verify_export.py:97-99 | a text cell comes out scrubbed and clean; a missing or numeric cell is not text and is kept |
| `Frames.WithoutMembers` | verify_export.py:85 | after `del`, exactly the other labels remain |
| `Frames.WithoutDistinct` | verify_export.py:85 | deleting a label keeps the labels distinct |
| `ExportRules.QueryData` | verify_export.py:54-65 | the query's frame has one column per selected field and one cell per joined row, in query order |
| `ExportRules.SessionOwner` | verify_export.py:77-78 | the session's owner when the session id is in the map, missing otherwise |
| `ExportRules.FillUsername` | verify_export.py:78 | a present username is kept; a missing one takes the session owner |
| `ExportRules.FillUsernameMissing` | verify_export.py:78 | the username stays missing exactly when it and the owner both are |
| `ExportRules.MasterLookup` | verify_export.py:81 | the master quantity of the item code when the map has it, missing (not 0) otherwise |
| `ExportRules.NumericValue` | verify_export.py:82-83 | `to_numeric(errors='coerce')`: an integer stays itself, text reads as a signed decimal, anything else is missing |
| `ExportRules.IntegerTextReadsPadded` | verify_export.py:82 | decimal text, with or without a sign, reads back as the number it spells |
| `ExportRules.CountedQtyCell` | verify_export.py:82 | the counted quantity is the number the cell holds, or 0 when it holds none |
| `ExportRules.CountedQtyStable` | verify_export.py:82 | coercing a coerced quantity changes nothing |
| `ExportRules.DifferenceCell` | verify_export.py:84 | the difference exists exactly when both quantities do, and then counted = system + difference |
| `ExportRules.LocalOfInstant` | verify_export.py:90-91 | converting a raw cell and rendering it is `Normalize` on its text, missing where that fails |
| `ExportRules.KeepOriginal` | verify_dates_mixed.py:108 | `fillna(original)`: the converted cell, or the original where conversion gave nothing |
| `ExportRules.ExportTextIsClean` | verify_dates_mixed.py:107-117 | export text holds no control character, so the later scrub leaves it unchanged |
| `VerifyExport.TestExportLogic` | verify_export.py:49-110 | no rows gives no sheet; otherwise exactly the twelve columns in order, one row per query row, each cell as the row-by-row rules say |
| `VerifyExport.ConvertColumns` | verify_export.py:77-91 | the enrichment and conversion steps leave each column as its per-cell rule, applied to the query's column, says |
| `VerifyExport.FillUsernames` | verify_export.py:78 | only the username column changes, to the filled one |
| `VerifyExport.EnrichQuantities` | verify_export.py:80-85 | the system, counted and difference columns are set, the helper column is gone, and the labels are the old ones plus the new columns |
| `VerifyExport.EnrichedLabels` | verify_export.py:80-85 | four assignments and one deletion leave the old labels less `system_qty_numeric`, then `system_qty` and `difference` where new |
| `VerifyExport.ConvertTimestamps` | verify_export.py:88-91 | `timestamp_dt` holds the instants, and `timestamp` their Bogota text, missing where a value did not convert |
| `VerifyExport.SheetShows` | verify_export.py:95-110 | the converted columns, scrubbed and projected, are the sheet `Shows` describes |
| `VerifyExport.UsernamesExported` | verify_export.py:78 | the username column is each row's username, or else its session owner, scrubbed |
| `VerifyExport.QuantitiesExported` | verify_export.py:80-85 | the quantity columns are each row's master quantity, coerced count and difference |
| `VerifyExport.TimestampsExported` | verify_export.py:88-99 | the timestamp column is each row's Bogota text, missing (not the raw text) where it does not convert |
| `VerifyExport.IdsKeepOrder` | verify_export.py:63 | the sheet keeps the query's rows in order: the ids still descend |
| `VerifyExport.TestRowQuantities` | verify_export.py:43 | against master {ITEM001: 5}, counted 10 gives system 5 and difference 5 |
| `VerifyExport.TestRowUserAndTime` | verify_export.py:43 | the test row shows user1, and its `isoformat()` time five hours back without microseconds |
| `VerifyDatesMixed.TestMixedDates` | verify_dates_mixed.py:72-117 | no rows gives no frame; otherwise the query's columns plus `timestamp_dt`, one row per query row; every timestamp converted or kept, then scrubbed |
| `VerifyDatesMixed.ConvertOrKeepTimestamps` | verify_dates_mixed.py:100-108 | `timestamp_dt` holds the instants; `timestamp` holds the Bogota text where a value converts and the saved raw value where it does not |
| `VerifyDatesMixed.MixedSheetShows` | verify_dates_mixed.py:96-117 | the three steps, one after the other, leave the frame `MixedShows` describes |
| `VerifyDatesMixed.MixedTimestampsShown` | verify_dates_mixed.py:102-117 | each row's timestamp cell depends only on that row's raw value |
| `VerifyDatesMixed.MixedTimestampMeaning` | verify_dates_mixed.py:105-117 | a converted value shows as its export text, which the scrub leaves alone; any other shows as its raw value, scrubbed |
| `VerifyDatesMixed.MixedKeepsCleanUnparsed` | verify_dates_mixed.py:108 | a value that does not convert and holds no control character comes through verbatim |
| `VerifyDatesMixed.FirstWhereSpec` | verify_dates_mixed.py:123-124 | the lookup finds a value exactly when the key occurs, and then the one at its first occurrence |
| `VerifyDatesMixed.MixedAssertionsHold` | verify_dates_mixed.py:123-134 | on the script's rows, ITEM004 shows `2025-11-28 15:09:33` and ITEM005 `2025-11-28 10:09:54`; neither holds a `T` and the first holds no `Z` |
| `VerifyDatesMixed.EmptyRowShown` | verify_dates_mixed.py:53-56 | the empty timestamp stays empty |
| `VerifyDatesMixed.InvalidRowShown` | verify_dates_mixed.py:47-50 | `INVALID-DATE-STRING` stays verbatim |
| `VerifyDatesMixed.MicrosRowShown` | verify_dates_mixed.py:44 | the `isoformat()` row shows five hours back, without microseconds |

## Left out

- The sqlite set-up (`init_test_db`) and the query itself. The joined result, ordered by id descending, is an input sequence of rows; a row without a session never appears in it. check_count.py is not part of this model.
- The Excel writing through openpyxl (verify_export.py:116-118) and every `print`.
- `asyncio.run`: it adds no concurrency.
- `datetime.now().isoformat()` in the test data is nondeterministic. It is replaced by the fixed value `2025-11-28T15:09:54.123456`.
- The IANA time-zone database. Bogota is the fixed offset −05:00, and the target offset is a parameter. America/Bogota differs from that in two periods: local mean time −04:56:16 before 1914-11-23, and daylight saving time at −04:00 for part of 1992 and 1993. For instants in those periods `Timestamps.AsWrittenMinusFiveHours` and every conversion lemma describe the fixed offset, not what the scripts print.
- Timestamp layouts other than the four above. dateutil and pandas accept many more (numeric offsets, other separators, dates alone). Here any other string does not convert.
- debug_dates.py only probes pandas' format inference and has no logic of its own. It is not modelled beyond the naive-value question above.
- `VerifyExport.ConvertTimestamps`: without `format='mixed'`, pandas 2 infers one format from the first value and turns the values in other layouts into NaT. The model parses each value on its own, which is exact for the script's single test row.
- `ExportRules.NumericValue`: reads only an optionally signed run of decimal digits. Floats, exponents, surrounding blanks and REAL cells are not modelled, and neither is the truncation of `astype(int)`.
- `ExportRules.DifferenceCell`: pandas makes the difference a float column with NaN. It is modelled as an integer or a missing value.
- The `try`/`except` around the timestamp step: with `errors='coerce'` on text values the step does not raise, so the exception path is not modelled.
- `Frames.Frame.SanitizeText`: applies the scrub to every text cell, which has the same effect as pandas' `select_dtypes(include=['object'])` (a column holding a string has object dtype, and `replace` leaves non-strings alone). The dtype bookkeeping itself is not modelled.
- The column lists of the frame are `Column` labels, not strings. `Frames.Label` gives the names pandas shows.
