# fireveg-db-imports, modelled in Dafny

fireveg-db-imports is a set of Python scripts that read the fire-ecology
spreadsheets of the NSW flora fire-response projects (the NSW Flora Fire
Response Database workbook, field-survey workbooks and AusTraits exports).
They turn each row into dict records for the fireveg PostgreSQL database,
and they plan the inserts that write those records. This project models that
row-to-record logic and the decision logic of the database layer. It proves
what the records hold, which rows give none, which exceptions are raised,
and which statements are issued.

Every modelled Python function that loops or updates state is modelled
twice. One that only computes a value is a Dafny function.

- **Method.** A method follows the code step by step. Its loops append to
  lists and update dicts, and that update is visible in the method's state.
- **Specification function.** Each method's `ensures` ties its result to a
  specification function.

The lemmas then state the properties of those specification functions.
A Python exception that depends on the data appears as `Err` with the
exception's name (`KeyError`, `AttributeError`, `UnboundLocalError`, ...).
An `assert` in the code becomes the error `AssertionError`.

## Modules

- `Wrappers`, `Seqs`, `Text`, `Dicts`, `PyValues`: the groundwork.
  - `Option` and `Result`.
  - Sequence helpers.
  - The Python string operations and regular expressions the scripts use, each written out as a scanner over characters.
  - An insertion-ordered dict with string keys.
  - The values that cells and records hold, how `str()` prints them, and the openpyxl cell, font and hyperlink attributes that are read.
- `FireVegRefs` (`lib/firevegrefs.py`): splits a citation "Authors (year) rest" into authors, year and the rest.
- `NswReferences`: reference codes of the NSW workbook.
  - `create_ref_code` and `create_ref_code_RP` build short author/year codes.
  - `extract_link` resolves the codes a cell's hyperlink points to against the three reference tables.
- `NswTraitValues`: `extract_value`.
  - Splits a text cell into "/" parts and then into "&", ";", ",", " or " and " and " pieces.
  - For each piece, records the `->` breadcrumbs and the switcher's normalised value.
  - The font notes.
- `NswNumericValues`: `extract_numeric_value`. Reads best values, lower bounds and upper bounds from numeric text.
- `NswRecords`: `create_record` and `create_numeric_record`. Add the species, the hyperlink's sources and the default weight.
- `NswResprouting`: `read_rows_resprouting`.
  - The reclassified fire-response summary record.
  - One record per NFRR code.
  - One record per roman-numeral regional code.
- `FieldSwitch`: the rows, and the "switch" dicts that map record keys to columns.
- `FieldSites`: `create_field_site_record`, `create_field_visit_record` and `create_field_sample_record`.
  - The SRID is found from the UTM zone.
  - The point geometry, the visits of each dated column, and the sample keys.
- `FireHistory`: `create_fire_history_record`, with its fire-date grammar.
  - A datetime or a year.
  - `YYYY-YYYY` and `YYYY-YY` ranges.
  - Dropping `<` and `>`.
- `Quadrats`: `create_quadrat_sample_record`.
  - Vocabulary columns with a `capitalize()` fallback.
  - Integer-only counts.
  - The visit date inherited through the replicate number.
- `BatchUpsert`: `batch_upsert`.
  - One INSERT per record with more keys than key columns, and the `ON CONFLICT` SET list of the non-key columns.
  - The geometry goes into the statement unquoted.
  - When nothing raises, every record is restored. When a geometry is not text, the record the TypeError came from keeps the placeholder.
- `SiteVisits`: `validate_and_update_site_records`.
  - Deduplicates the records and collects the distinct sites.
  - Counts each record's matches in the fetched visits and backfills the date by replicate number.
  - Decides the visit and sample inserts.
- `AusTraits`: `extract_reflabel`, `extract_refinfo`, `match_spcode` and `create_record`.
  - Labels are truncated to 50 characters.
  - Citation assembly and species-code matching.
  - The source labels, the weight rule and the notes.

## Behaviour of the code the model keeps

These are quirks of the Python code. The model follows the code in each case.

- The site geometry is emitted when the SRID and both coordinates are `not None`. A zero or empty coordinate still counts. An SRID or coordinate that was never bound raises `UnboundLocalError` (`lib/fireveg.py:43`).
- A sample's `visit_id not in ('Site Number')` is a substring test on a string. "Site", "Number" and the empty text are also skipped (`lib/fireveg.py:128`).
- `validate_and_update_site_records` backfills the date from the first match whenever at least one row matches, not only a unique one (`lib/firevegdb.py:113-114`). The visit and sample inserts are issued for every record of a known site that has a date, even when no row matched it (`lib/firevegdb.py:116-124`).
- A fire date "YYYY-YY" takes its end year from `int(a[0:2] + b)`. That is the century of the first year plus the two digits, so "1999-01" ends in 1901 (`lib/fireveg.py:111-113`).
- In `match_spcode`, a pandas `Series` is never `None`. A species code is therefore taken whenever exactly one row has the name (`lib/austraits_util.py:36`).
- The AusTraits weight rule compares the reference label, not the dataset id, with `NSWFRD_2014`. When the names differ, the original-name notes replace the observation-id notes (`lib/austraits_util.py:61-65`, `75`).
- `extract_numeric_value` stores best, lower and upper as its branches find them, and nothing afterwards compares them. So "9-3" gives lower 9 and upper 3 (`lib/nswfireflora_util.py:205-210`).

## Model

| member | source | states |
|---|---|---|
| NswReferences.CapitalisedWords | lib/nswfireflora_util.py:15 | keeps exactly the words that start with a capital followed by a lower-case letter, and never more words than it is given |
| NswReferences.CapitalisedWordsAppend | lib/nswfireflora_util.py:15 | the filter keeps order: the words kept from two lists in a row are those kept from the first, then those kept from the second |
| NswReferences.CapitalisedWord | lib/nswfireflora_util.py:15 | a single word is kept exactly when it starts with a capital followed by a lower-case letter |
| NswReferences.CreateRefCode | lib/nswfireflora_util.py:4-20 | the code is the capitalised author words, a space and the year, cut to a prefix of at most 50 characters; whole when it fits, exactly 50 characters when it does not |
| NswReferences.CreateRefCodeRP | lib/nswfireflora_util.py:22-29 | "RP " is put in front unless the text holds the literal "^RFA"; the result is a prefix of that text of length min(its length, 50) |
| NswReferences.Matches | lib/nswfireflora_util.py:46-47 | exactly the refstrings of the table rows whose code equals the key, never more than the table has |
| NswReferences.ResolveCode | lib/nswfireflora_util.py:50-59 | a citation is found for a code exactly when, after stripping and dropping a final a, b or c, a numeric code has it in the numbered table, or any other code has it in one of the two tag tables |
| NswReferences.ResolvedMembers | lib/nswfireflora_util.py:49-59 | a citation is found for a list of codes exactly when one of the codes resolves to it |
| NswReferences.ResolveOne | lib/nswfireflora_util.py:50-59 | the body of the code loop finds what ResolveCode says: the numbered table for a numeric code, else the first tag table then the second |
| NswReferences.ResolveCodes | lib/nswfireflora_util.py:49-59 | the citations of all the codes the `[,;\s]+` split gives, concatenated in code order |
| NswReferences.ResolveAll | lib/nswfireflora_util.py:49-59 | the loop over the codes appends each code's citations in order |
| NswReferences.ResolveGroups | lib/nswfireflora_util.py:91-102 | the citations of the codes of every parenthesised group of a part, group after group, code after code |
| NswReferences.ExtractLink | lib/nswfireflora_util.py:31-62 | a link to another sheet gives None; a link to the References sheet gives None for an empty cell, the numbered-table citations for an integer cell and the split-and-resolved citations for a text cell; a link without a location or a cell of another type raises |
| NswTraitValues.ReadPart | lib/nswfireflora_util.py:87-111 | the part is the stripped text; it has citations exactly when "(" comes after its first character, is inferred exactly when it starts with "a-", is uncertain exactly when "?" comes after its first character; its value text holds no "?", is no longer than the part, and differs from it exactly when the part was reduced |
| NswTraitValues.ReadPiece | lib/nswfireflora_util.py:115-123 | the piece is stripped, and counts as a further split exactly when it differs from the part's value text |
| NswTraitValues.PieceRecordsFrom | lib/nswfireflora_util.py:113-133 | every record of a part is the record of one of its and/or pieces |
| NswTraitValues.PieceRecordsHave | lib/nswfireflora_util.py:113-133 | every and/or piece of a part has its record among the part's records |
| NswTraitValues.PieceRecordShape | lib/nswfireflora_util.py:114-133 | a piece's record. Its raw value is the variable and the part; then `->` and the part's value text when that differs from the part; then `->` and the piece when the piece differs from the value text: 2, 4 or 6 entries. Its main source is NSWFFRDv2.1. It has a normalised value exactly when the switcher maps the piece to something other than None, and sources exactly when the part cites some. Its notes are the shared notes followed, in this order, by the split-into-parts, split-by-and/or and inferred-from-morphology notes, each only when it applies. Notes are set exactly when there is at least one |
| NswTraitValues.NotesGrow | lib/nswfireflora_util.py:72-108 | the shared note list is never reset between parts: the notes after some parts are a prefix of the notes after all of them |
| NswTraitValues.PartRecordsKeepNotes | lib/nswfireflora_util.py:113-132 | every record of a part starts its notes with the notes shared at that point |
| NswTraitValues.UncertainStays | lib/nswfireflora_util.py:107-108 | once a part is uncertain, "uncertain" stays in the shared notes for every later part |
| NswTraitValues.UncertainLeaks | lib/nswfireflora_util.py:107-132 | once a part is uncertain, every record of every later part carries the "uncertain" note, whether or not it has a "?" of its own |
| NswTraitValues.ScanRecordsShape | lib/nswfireflora_util.py:83-133 | every record of a text cell names the variable first, has at least two raw-value entries and has NSWFFRDv2.1 as main source. Every record is the PieceRecordShape record of some piece of some "/" part j, read with the notes shared after parts 0..j. Conversely, every piece of every part gives its record |
| NswTraitValues.ExtractValue | lib/nswfireflora_util.py:64-134 | the records ValueRecords gives: one record with the number's text and the font notes for a number, the part-by-part records for text, AttributeError for any other value |
| NswTraitValues.ValueRecordsShape | lib/nswfireflora_util.py:64-134 | an int or a float gives exactly one record: raw value the variable and `str()` of the number, no main source, no normalised value, the font notes as its notes, and notes set exactly when there are font notes. A text gives the ScanRecords records of its "/" parts, each naming the variable first, with NSWFFRDv2.1 as main source and notes starting with the font notes. Any other value raises AttributeError |
| NswTraitValues.ScanText | lib/nswfireflora_util.py:83-133 | the outer loop gives the records of each part in order, each part read with the notes shared at that point |
| NswTraitValues.ReadOnePart | lib/nswfireflora_util.py:84-133 | one round of the outer loop: "uncertain" is added to the shared notes for a doubtful part, and the part's records are appended |
| NswTraitValues.SplitPieces | lib/nswfireflora_util.py:113-133 | the inner loop gives one record per piece, in order |
| NswNumericValues.Numeric | lib/nswfireflora_util.py:203-218 | the text is kept exactly when it `isnumeric()`, and is then the text itself |
| NswNumericValues.ParseTriplet | lib/nswfireflora_util.py:202-220 | a best value exactly when the text is a number, and then nothing else; every bound set is a number; both bounds only for a text with a "-" after its first character |
| NswNumericValues.NumericHasNoSign | lib/nswfireflora_util.py:203-218 | a number holds no "-", ">" or "<", so the range and bound branches never see one |
| NswNumericValues.TripletOfNumber | lib/nswfireflora_util.py:203-204 | a plain number is the best value and sets no bound |
| NswNumericValues.TripletOfRange | lib/nswfireflora_util.py:205-210 | "a-b" with numbers on both sides sets the lower bound a and the upper bound b and no best value |
| NswNumericValues.TripletOfAtLeast | lib/nswfireflora_util.py:211-214 | ">a" with a number after it sets only the lower bound a |
| NswNumericValues.TripletOfAtMost | lib/nswfireflora_util.py:215-218 | "<a" with a number after it sets only the upper bound a |
| NswNumericValues.TripletOfOther | lib/nswfireflora_util.py:203-220 | a text that is no number, has no "-" after its first character and starts with neither ">" nor "<" sets no key |
| NswNumericValues.TripletOfDash | lib/nswfireflora_util.py:205-210 | "a-b" with a non-empty `a` and no other "-" is a range whatever the ends hold: each end is set exactly when it is a number, and no best value is set |
| NswNumericValues.ReadNumericPart | lib/nswfireflora_util.py:181-202 | the raw value is the stripped part; citations exactly when "(" comes after the first character once "?" is removed; the parsed text is no longer than the part |
| NswNumericValues.NumericRecordsAt | lib/nswfireflora_util.py:179-224 | part j of a cell gives record j, which depends on part j and the font notes alone: a fresh copy of the notes per part, so nothing one part notes reaches another |
| NswNumericValues.NumericPartShape | lib/nswfireflora_util.py:180-224 | a part's record holds the variable and the stripped part, has NSWFFRDv2.1 as main source, notes "uncertain" exactly for a part with "?" after its first character, and has a source list exactly when the part has a "(" |
| NswNumericValues.ExtractNumericValue | lib/nswfireflora_util.py:162-225 | the records NumericValueRecords gives: for a number, its text, the number as best value and the font notes; for text, one record per part; AttributeError for any other value |
| NswNumericValues.NumericText | lib/nswfireflora_util.py:179-224 | the loop gives one record per part, in order |
| NswNumericValues.ReadNumericRecord | lib/nswfireflora_util.py:180-224 | the loop body builds the record NumericPart describes |
| NswRecords.StampAllAt | lib/nswfireflora_util.py:154-159 | record j of the output is record j of the cell, stamped (weighed as well for numeric columns); one output record per cell record |
| NswRecords.StampKeeps | lib/nswfireflora_util.py:155-158 | stamping keeps the cell's text, values and notes, sets the species and species code of the row, and takes the link's sources only for a record without the key, so a record's own sources (even an empty list) win |
| NswRecords.WeighSets | lib/nswfireflora_util.py:242-249 | every numeric record gets the main source, weight 1 and the two default weight notes, the species of the row and the sources rule of `create_record`, whatever the cell gave |
| NswRecords.EmptyCells | lib/nswfireflora_util.py:140-160 | an empty cell makes `create_record` return None without reading its hyperlink, while `create_numeric_record` reads the hyperlink first, so a broken link raises even for an empty cell, and otherwise returns no records |
| NswRecords.CreateRecord | lib/nswfireflora_util.py:136-160 | the result RowRecords gives: None for an empty cell; else the link's exception, AssertionError for a variable name that is not text, the value extractor's exception, or the cell's records stamped with the row's species |
| NswRecords.CreateNumericRecord | lib/nswfireflora_util.py:227-251 | the result NumericRowRecords gives: the link's exception first, no records for an empty cell, else the extractor's exception or its records weighed |
| NswRecords.StampRecords | lib/nswfireflora_util.py:154-159 | the loop stamps every record in order |
| NswResprouting.Reclassify | lib/nswfireflora_util.py:261-292 | the fire response is a known class exactly when it is one of the five codes S, Sr, S/R, Rs, R; anything else is Unknown |
| NswResprouting.CategoriesSound | lib/nswfireflora_util.py:318-350 | every category found belongs to an entry of the regional categories carrying that code |
| NswResprouting.ItemRaw | lib/nswfireflora_util.py:315-321 | an item record's raw value has three entries, the last the overall fire response of the row |
| NswResprouting.NfrrGroup | lib/nswfireflora_util.py:316-321 | an NFRR item names a group only when it has exactly one number, and the group's code is that number |
| NswResprouting.NfrrSources | lib/nswfireflora_util.py:328-332 | an NFRR item cites at most one reference |
| NswResprouting.OtherGroup | lib/nswfireflora_util.py:348-352 | an item of the other column names a group only when it has exactly one roman numeral, and the group's code is that numeral |
| NswResprouting.OtherSources | lib/nswfireflora_util.py:359-362 | an item of the other column cites at most one reference |
| NswResprouting.OtherRecord | lib/nswfireflora_util.py:344-367 | an item of the other column raises (IndexError) exactly when its one roman numeral has no group or its one number has no reference |
| NswResprouting.RowRecordFromRow | lib/nswfireflora_util.py:281-305 | every copy of the base record has the main source, the row's species and code when given, the two base notes first, the comment as its only original note when there is one, the given raw value, class and weight, and a source list exactly when it has sources |
| NswResprouting.SummaryShape | lib/nswfireflora_util.py:290-308 | the summary record has the variable and the fire response as raw value, the reclassified class, weight 10 with the summary weight note, and no sources |
| NswResprouting.NfrrRecordShape | lib/nswfireflora_util.py:312-341 | an NFRR item record has weight 1 and the overall response last in its raw value, names its group when it names one, takes the class of its one number (1, 2, 3, 8 none; 4-7, 9, 11 all; other unknown) or keeps the reclassified response, and has at most one source |
| NswResprouting.OtherRecordShape | lib/nswfireflora_util.py:344-367 | an item record of the other column names the group of its one roman numeral or keeps the row's raw value, takes that numeral's class or the reclassified response, and has one source exactly when it has exactly one number |
| NswResprouting.NfrrColumnItems | lib/nswfireflora_util.py:309-341 | the NFRR column gives one item record per space-separated item, after the FO(1) rewrite |
| NswResprouting.ReplaceError | lib/nswfireflora_util.py:310 | `replace('FO(1)', 'FOI')` on an NFRR cell that is not text raises TypeError for a date or datetime, whose own `replace` refuses text arguments, and AttributeError for anything else |
| NswResprouting.OtherColumnItems | lib/nswfireflora_util.py:342-367 | the other column, when nothing is raised, gives one item record per space-separated item |
| NswResprouting.OtherColumnFails | lib/nswfireflora_util.py:342-367 | the other column raises exactly when it is neither empty nor text, or one of its items names a missing group or reference |
| NswResprouting.RowLayout | lib/nswfireflora_util.py:290-369 | a row's records are the summary record, then one per NFRR item, then one per other item, every one after the first an item record of the row |
| NswResprouting.RowFails | lib/nswfireflora_util.py:290-369 | a row with a fire response raises exactly when one of its two code columns holds something other than text, or an item of the other column names a missing group or reference |
| NswResprouting.ReadRowsResprouting | lib/nswfireflora_util.py:253-371 | the result ResproutRecords gives: nothing for a row without a fire response, else the row's records or the exception raised |
| NswResprouting.ReadColumns | lib/nswfireflora_util.py:290-369 | the part after the empty-row check gives what RowColumns says |
| NswResprouting.NfrrLoop | lib/nswfireflora_util.py:312-341 | the NFRR loop gives the record of each item, in order |
| NswResprouting.NfrrItem | lib/nswfireflora_util.py:313-340 | the loop body, changing the base record item by item, gives the NFRR record of the item |
| NswResprouting.OtherLoop | lib/nswfireflora_util.py:344-367 | the loop over the other items gives the record of each item in order, or stops at the first exception |
| NswResprouting.OtherItem | lib/nswfireflora_util.py:345-366 | the loop body gives the record of the item or its IndexError |
| FireVegRefs.Before | lib/firevegrefs.py:6-12 | `x[0:x.find(c)]`: the text before the first `c`, which holds no `c`; without a `c`, all but the last character (the -1 end index), or nothing for empty text |
| FireVegRefs.KeepDigitsWithoutComma | lib/firevegrefs.py:12-13 | removing the commas does not change which digits the year is read from |
| FireVegRefs.ExtractYear | lib/firevegrefs.py:4-14 | "pers. comm." when the citation holds "personal communication", "unpub." when it holds "unpublished", otherwise every digit before the first ")", in order |
| FireVegRefs.ExtractAuthors | lib/firevegrefs.py:16-18 | the prefix before the first "(" (which holds no "("), or all but the last character without one |
| FireVegRefs.ExtractRest | lib/firevegrefs.py:20-22 | the text after the first ")", which is preceded by a text without ")", or the whole citation without one |
| FireVegRefs.CitationRoundTrip | lib/firevegrefs.py:16-22 | taking a citation "authors(year)rest" apart gives back its authors and its rest |
| FieldSwitch.CopyUsableGet | lib/fireveg.py:11-15 | after the copy, a listed key holds the row's value exactly when the switch has the key and the value is neither None nor "na"/"NA"; every other key is as before |
| FieldSwitch.CopyColumns | lib/fireveg.py:11-15 | the copying loop gives the record CopyUsable describes |
| FieldSites.LastRead | lib/fireveg.py:18-21 | `for xs in cols: xlon = item[xs].value` leaves the value of the last column, or what was bound before when the list is empty |
| FieldSites.GeomOf | lib/fireveg.py:43-44 | a geometry exactly when the spatial reference is bound and both coordinates are bound and not None, and then the point text; UnboundLocalError exactly when the reference or the longitude was never bound, or the latitude was never bound while the longitude is not None |
| FieldSites.SiteSkipped | lib/fireveg.py:7-46 | a row gives no site record exactly when its site is empty or "Site", and such rows never raise |
| FieldSites.SiteRecordFields | lib/fireveg.py:9-44 | a site record holds the site, holds each optional column exactly when the switch has it and its value is usable, and holds a geometry exactly when one could be built |
| FieldSites.SiteSrid | lib/fireveg.py:17-41 | the spatial reference is 28354-28356 for UTM zones 54-56, which override the longitude/latitude 4326; 4326 with longitudes and no such zone; unbound with neither |
| FieldSites.CreateFieldSiteRecord | lib/fireveg.py:6-46 | the result SiteRecord gives: nothing for a header or empty row, else the record or the UnboundLocalError |
| FieldSites.LastCell | lib/fireveg.py:18-21 | the coordinate loop keeps the value of the last column it reads |
| FieldSites.DatesIn | lib/fireveg.py:52-55 | the values taken from the date columns are all datetimes |
| FieldSites.VisitRecordsDates | lib/fireveg.py:49-67 | a row naming a site gives one record per datetime among its date columns, in order, each with the site as visit_id and that datetime as visit_date; any other row gives no record |
| FieldSites.VisitRecordKeys | lib/fireveg.py:56-58 | a visit record keeps its site, its date and the switch's survey name when it has one |
| FieldSites.VisitFieldsKeep | lib/fireveg.py:59-65 | the optional visit columns touch only their own keys |
| FieldSites.VisitFieldsObservers | lib/fireveg.py:59-65 | the visit fields raise exactly when the observer list is usable but not text, otherwise it is the value split on "," |
| FieldSites.CreateFieldVisitRecord | lib/fireveg.py:49-67 | the result FieldVisitRecords gives |
| FieldSites.VisitDate | lib/fireveg.py:52-66 | one turn of the date loop extends the records for the dates read so far |
| FieldSites.VisitRecordOf | lib/fireveg.py:56-65 | the loop body gives the visit record of one datetime |
| FieldSites.SampleRecordKeys | lib/fireveg.py:127-146 | a sample record has visit_id, replicate_nr and sample_nr first (None when the switch does not track them; the fixed replicate when given), and a visit_date, as a date, exactly when the date cell holds a datetime |
| FieldSites.SampleSkipsHeader | lib/fireveg.py:128 | "Site Number", "Site", "Number" and the empty text all give no sample record, since the test is a substring test on one string |
| FieldSites.CreateFieldSampleRecord | lib/fireveg.py:126-146 | the result SampleRecord gives: nothing for a missing or header visit, TypeError for a visit that is not text, else the record |
| FireHistory.YearDay | lib/fireveg.py:90-91 | `datetime(y, 1, 1)` or `datetime(y, 12, 31)` succeeds exactly for the years 1 to 9999, in year y; ValueError otherwise |
| FireHistory.Repeat | lib/fireveg.py:102-103 | one "max/min value given" note per character found |
| FireHistory.RemoveChars | lib/fireveg.py:101-104 | what is left holds none of the removed characters |
| FireHistory.YearTextAgrees | lib/fireveg.py:87-97 | a year given as an int and the same year given as its digits give the same fire date, from the first of January to the last of December, with no note |
| FireHistory.FireDateKinds | lib/fireveg.py:83-93 | a datetime is a one-day fire date; a year that is not positive is kept as text with the missing-date note and no bounds; a year over 9999 raises ValueError; a value that is neither datetime, int nor text raises AttributeError |
| FireHistory.AnglesDropped | lib/fireveg.py:101-104 | the loop over the `<` and `>` found removes every one of them and keeps every other character |
| FireHistory.TextDateNotes | lib/fireveg.py:98-113 | a fire date given as text keeps the text, notes "Fire date given as" it, adds one note per `<` or `>`, and takes its bounds from the text without them; it raises exactly when reading those bounds does |
| FireHistory.SplitPair | lib/fireveg.py:105 | splitting "a-b" on "-", where neither side holds "-", gives the two sides |
| FireHistory.FullRange | lib/fireveg.py:106-110 | "YYYY-YYYY" runs from the first of January of the one year to the last of December of the other |
| FireHistory.ShortRange | lib/fireveg.py:106-113 | "YYYY-YY" ends in the same century as it starts: "1990-95" ends on 31 December 1995 |
| FireHistory.ShortHigh | lib/fireveg.py:111-113 | the latest day of "YYYY-YY" is the last of December of the first year's century plus the two digits |
| FireHistory.ShortYear | lib/fireveg.py:112-113 | `int(a[0:2] + b)` is the century of a plus b, and below 10000 |
| FireHistory.NoRange | lib/fireveg.py:105-106 | a text that does not split into exactly two parts on "-" has no bounds |
| FireHistory.FireFieldsOther | lib/fireveg.py:79-117 | a key other than the fire date and its bounds holds the row's value exactly when that is not None |
| FireHistory.FireFieldsDate | lib/fireveg.py:79-117 | with a non-empty fire-date column the loop raises exactly when reading the date does, and otherwise holds its text, its two bounds and its notes; without one, none of the three keys and no notes |
| FireHistory.FireHistoryShape | lib/fireveg.py:72-122 | at most one record per switch, each with more than one key; a header row ("Site" as the site label of every switch) gives no records |
| FireHistory.CreateFireHistoryRecord | lib/fireveg.py:72-122 | the result FireHistoryRecords gives: the record of each switch in order, or the first exception |
| FireHistory.FireHistoryRecordOf | lib/fireveg.py:75-121 | the body of the loop over the switches gives the record FireHistoryRecord describes |
| FireHistory.FireKey | lib/fireveg.py:79-117 | one turn of the loop over a switch's keys extends the record read so far |
| FireHistory.ReadFireDate | lib/fireveg.py:82-113 | the fire-date branch gives what FireDateOf says |
| FireHistory.ReadTextDate | lib/fireveg.py:98-113 | the free-text branch gives what TextDate says |
| FireHistory.ReadRange | lib/fireveg.py:105-113 | the split on "-" and the bounds read from its two parts are the ones RangeBounds gives |
| Quadrats.VocabValue | lib/fireveg.py:195-208 | a vocabulary column stores only a word of its vocabulary. A word in the vocabulary is stored as written; otherwise its capitalised form, when that is in the vocabulary; otherwise nothing. Only a value that is not text raises, since only text has `capitalize` |
| Quadrats.FieldRules | lib/fireveg.py:195-219 | per column kind: the organ and seed bank follow VocabValue, and a word matched neither way leaves the note "resprout organ written as v" or "seedbank written as v". A count is stored exactly when it is an int; otherwise it leaves the note "k written as v". A stored value never leaves a note |
| Quadrats.FieldsGet | lib/fireveg.py:190-221 | after the loop over the optional columns, a listed column with a usable value holds what its rule stores, or what it held before when the rule stores nothing; every other key is as before |
| Quadrats.FieldsComments | lib/fireveg.py:190-221 | the loop only appends to the comments: afterwards they are those before it, followed by the notes of the columns in column order |
| Quadrats.QuadratComments | lib/fireveg.py:155-224 | a record's comments are the workbook and worksheet lines, then the visit-date notes, then the notes of the optional columns in column order |
| Quadrats.QuadratCommentsFrom | lib/fireveg.py:190-221 | every note of the optional columns comes from a column that the row fills with a usable value |
| Quadrats.QuadratFieldRules | lib/fireveg.py:190-224 | each optional column of a record holds what its rule stores for the row's usable value, and that rule's notes are among the record's comments; a column the row does not fill is absent |
| Quadrats.QuadratVocab | lib/fireveg.py:195-208 | in a record, the organ or seed bank word the row gives is stored as written when it is in the vocabulary, else capitalised when that is; otherwise it is absent, and the comments say how it was written |
| Quadrats.QuadratCount | lib/fireveg.py:214-219 | in a record, a count the row gives is present exactly when it is an int, and is then that int; otherwise the comments say "k written as v" |
| Quadrats.FieldValue | lib/fireveg.py:190-221 | whatever an optional column stores fits it: a vocabulary word for the organ and the seed bank, an int for each count |
| Quadrats.QuadratSkipped | lib/fireveg.py:149-226 | a row gives no record, and raises nothing, exactly when its species is None |
| Quadrats.MatchesFilter | lib/fireveg.py:174-175 | the filter keeps, in order, exactly the lookup entries of the same visit and replicate number; nothing is found when the replicate number was never bound |
| Quadrats.MatchesRaise | lib/fireveg.py:174-175 | the filter raises exactly when the test on some lookup entry does: a missing `visit_id` or `replicate_nr` key, or a replicate number never bound |
| Quadrats.FieldsFit | lib/fireveg.py:190-221 | the loop over the optional columns keeps every stored value fitting its column |
| Quadrats.FieldsKeep | lib/fireveg.py:190-221 | the loop writes only the optional columns' own keys and only adds comments |
| Quadrats.FixedKeys | lib/fireveg.py:153-188 | the first keys, the visit date, the species code and the comments are none of the optional columns |
| Quadrats.CodedKeys | lib/fireveg.py:153-188 | before the optional columns the record holds the row's visit, sample number and species, the visit date found, a species code exactly when the code is digits or an int, and no comments |
| Quadrats.CodedFit | lib/fireveg.py:153-188 | every key written before the optional columns is one copied as it is |
| Quadrats.QuadratShape | lib/fireveg.py:148-226 | a record holds the visit, sample number and species of its row and the visit date found; a species code exactly when it is digits or an int; an organ or seed bank only from its vocabulary; counts only as ints; comments only when there are some |
| Quadrats.FinishedKeys | lib/fireveg.py:223-224 | adding the comments changes no other key and keeps the columns fitting; the comments are stored only when there are some |
| Quadrats.VisitDateCases | lib/fireveg.py:161-185 | the visit date is the row's own datetime as a date; else that of the one lookup entry matched, when exactly one matches and has a date; else none, with a note |
| Quadrats.UnboundReplicate | lib/fireveg.py:166-175 | a sample with no datetime of its own and no replicate number raises |
| Quadrats.CreateQuadratSampleRecord | lib/fireveg.py:148-226 | the result is the record QuadratRecord describes, or the exception it raises |
| Quadrats.ReadVisitDate | lib/fireveg.py:161-185 | the visit-date branch gives what VisitDate says |
| Quadrats.Filter | lib/fireveg.py:174-175 | the filter gives what Matches says |
| Quadrats.ReadFields | lib/fireveg.py:190-221 | the loop over the optional columns gives what Fields says |
| Quadrats.FieldTurn | lib/fireveg.py:192-221 | one turn of that loop extends what has been read so far by one column |
| Quadrats.ReadField | lib/fireveg.py:194-221 | the branches of the loop's body give what FieldStep says |
| BatchUpsert.Quote | lib/firevegdb.py:44 | `tuple(record.values())` has one quoted value per key of the record |
| BatchUpsert.NonKey | lib/firevegdb.py:39-41 | the columns kept are exactly the record's keys that are not key columns |
| BatchUpsert.PutGeom | lib/firevegdb.py:57 | `replace("'GEOMSTR'", the_geom)` puts the geometry's text in place of every quoted placeholder and changes no other value |
| BatchUpsert.SetListColumns | lib/firevegdb.py:38-41 | the SET list is `col=EXCLUDED.col` for exactly the non-key columns, in the record's key order |
| BatchUpsert.RecordQueryValues | lib/firevegdb.py:32-58 | a statement names the table and every key of the record, with each value quoted except the geometry, which goes in as SQL (as does any other value equal to the placeholder); DO NOTHING without a constraint, DO UPDATE of the SET list with one |
| BatchUpsert.GeomNotText | lib/firevegdb.py:33-57 | rendering a record's statement raises exactly when its geometry is not text |
| BatchUpsert.PlanRecords | lib/firevegdb.py:31-58 | one statement per record with more keys than key columns, for that record, in order |
| BatchUpsert.LongHeld | lib/firevegdb.py:31-32 | the records that give a statement are records of the list |
| BatchUpsert.PlanRaises | lib/firevegdb.py:31-58 | the loop raises exactly when some record that gives a statement has a geometry that is not text |
| BatchUpsert.UpdatedGrows | lib/firevegdb.py:60-63 | the updated-row count never decreases, and stays the same over statements whose row counts are not positive |
| BatchUpsert.Upsert | lib/firevegdb.py:21-73 | the statements executed (or printed) are those of Plan. The count is the sum of the positive row counts when executing, and 0 in a dry run. When nothing raises, every record is left as it was. When a TypeError is raised, it comes from the first record that gives a statement and whose statement fails (every record before it plans fine), and that record keeps the placeholder as its geometry |
| BatchUpsert.UpsertRecord | lib/firevegdb.py:33-58 | the body of the loop builds RecordQuery's statement and gives the record its geometry back; on a raise the record is left holding the placeholder |
| BatchUpsert.Mogrify | lib/firevegdb.py:36-53 | `mogrify` and the loop building the SET list give the statement QueryOf describes |
| SiteVisits.Dedupe | lib/firevegdb.py:85-91 | the records kept are listed by increasing position, each with a `visit_id`; the only exception is KeyError |
| SiteVisits.Hits | lib/firevegdb.py:105-110 | the rows found are exactly the fetched rows that match, and there are no more of them than rows fetched |
| SiteVisits.DedupeRaises | lib/firevegdb.py:87-91 | the first loop raises exactly when some record kept has no `visit_id`: a record equal to one kept before is never read |
| SiteVisits.DedupeCovers | lib/firevegdb.py:87-89 | every record is equal, item for item, to one of the records kept |
| SiteVisits.DedupeFirst | lib/firevegdb.py:87-89 | every record kept is the first of the records equal to it |
| SiteVisits.DedupeSites | lib/firevegdb.py:90-91 | the sites are the `visit_id`s of the records kept, without repeats |
| SiteVisits.FirstHit | lib/firevegdb.py:113-114 | `found[0]` is the first fetched row that matches |
| SiteVisits.ResolveKeeps | lib/firevegdb.py:102-129 | the lookup changes only `found` and `visit_date`, and keeps a date the record already had |
| SiteVisits.ResolveFound | lib/firevegdb.py:102-129 | a record of an unknown site gets `found = 0`; one with a date gets the number of rows with its site and date; one with a replicate number instead gets the number of rows with its site and replicate number, and a date exactly when there is one; any other record is unchanged |
| SiteVisits.HitsAny | lib/firevegdb.py:105-113 | some row is found exactly when some fetched row matches |
| SiteVisits.BackfilledDate | lib/firevegdb.py:108-114 | a record found by replicate number takes the date of the first matching row |
| SiteVisits.ResolutionsIdentified | lib/firevegdb.py:102-129 | every record keeps its `visit_id` through the lookup |
| SiteVisits.StatementsPaired | lib/firevegdb.py:116-124 | a visit insert and then a sample insert, with the record's site, date and sample number, for each record of a known site that has a date once looked up (even when no row matched it), and none for any other record |
| SiteVisits.StatementsRaise | lib/firevegdb.py:116-124 | the second loop raises exactly when a record it inserts for has no `sample_nr` |
| SiteVisits.ValidateAndUpdate | lib/firevegdb.py:76-142 | a KeyError in the first loop leaves every record as it was. Otherwise the sites queried are the distinct sites, the kept records are looked up in place, and the statements are those of Statements with the positive row counts summed. An exception in the second loop comes from the first kept record whose statements fail, and leaves exactly the records up to and including it looked up |
| SiteVisits.DedupeRecords | lib/firevegdb.py:85-91 | the first loop gives what Dedupe says and changes no record |
| SiteVisits.Insert | lib/firevegdb.py:116-124 | the inserts for one record extend the statements and the count as Statements and Updated say |
| SiteVisits.ResolveRecord | lib/firevegdb.py:103-129 | the lookup of one record gives what Resolve says |
| AusTraits.Shorten | lib/austraits_util.py:8-9 | a label is at most 50 characters: a shorter one is kept as it is, a longer one becomes its first 47 characters and "..." |
| AusTraits.RefLabelShape | lib/austraits_util.py:2-10 | the label is the authors' last names and the year, shortened to at most 50 characters; KeyError exactly when the entry, its year or its author list is missing |
| AusTraits.ExtractRefLabel | lib/austraits_util.py:2-10 | the loop over the authors gives the label RefLabel describes |
| AusTraits.OneAuthorJoined | lib/austraits_util.py:16-22 | the one-author branch gives what joining the single author with "; " would |
| AusTraits.ExtrasAppended | lib/austraits_util.py:23-25 | the journal, volume and DOI are appended, each after a space, in that order, each when the entry has it |
| AusTraits.RefInfoShape | lib/austraits_util.py:12-26 | a citation starts with its authors and, when the entry has a DOI, ends with it |
| AusTraits.ExtractRefInfo | lib/austraits_util.py:12-26 | the loops over the authors and the extra fields give the citation RefInfo describes |
| AusTraits.Named | lib/austraits_util.py:34 | the rows selected are exactly the species-list rows with that scientific name |
| AusTraits.MatchSpcode | lib/austraits_util.py:28-46 | the result holds only `species`, `original_notes` and `species_code` |
| AusTraits.NamedOne | lib/austraits_util.py:36-37 | when exactly one row has the name, that row is the one `values[0]` reads |
| AusTraits.MatchFacts | lib/austraits_util.py:28-46 | the species is the taxon name; the original-name notes are there exactly when the names differ; the code comes from the one row named like the taxon, else from the one row named like the original name, which adds the matching note |
| AusTraits.NotesOfNames | lib/austraits_util.py:32-44 | when the names differ, the notes start with "original_name:" and the original name |
| AusTraits.SourceIds | lib/austraits_util.py:67-68 | one id per comma-separated part of `source_id`, stripped of whitespace |
| AusTraits.MatchedGet | lib/austraits_util.py:57-65 | after copying the species information, the dataset's label is the one source; the notes are the original-name notes when there are some and the observation id otherwise; there is no normalised value |
| AusTraits.BuiltSources | lib/austraits_util.py:66-74 | the later steps append the source labels, when `source_id` is given, after the sources already there |
| AusTraits.BuiltNotes | lib/austraits_util.py:83-85 | the later steps append "location id:" and the location id, when there is one, after the notes already there |
| AusTraits.BuiltWeight | lib/austraits_util.py:75-80 | the later steps set the weight to 0, with the redundancy notes, for the NSWFRD_2014 label and to 1 for any other |
| AusTraits.BuiltNorm | lib/austraits_util.py:81-82 | the later steps set the normalised value to the translation when there is one |
| AusTraits.RecordSources | lib/austraits_util.py:48-74 | the sources are the dataset's label and then the label of each source id, in order; only the dataset's when `source_id` is "nan" |
| AusTraits.SourceLabelsEach | lib/austraits_util.py:67-73 | one label per source id, in order: its reference label when the bibliography has it, the id itself when not |
| AusTraits.RecordWeight | lib/austraits_util.py:75-80 | the weight is 0, with the redundancy note, exactly when the dataset's label is NSWFRD_2014, and 1 otherwise |
| AusTraits.RecordNorm | lib/austraits_util.py:55-82 | the record has a normalised value exactly when the vocabulary maps the value to something other than None, and then it is that translation |
| AusTraits.RecordNotes | lib/austraits_util.py:57-85 | the notes are the observation id when the names agree, the original-name notes in its place when they differ, then the location id when there is one |
| AusTraits.ObservationDropped | lib/austraits_util.py:61-65 | when the names differ, the record's notes start with the original name, so the observation id no longer leads them |
| AusTraits.RecordRaises | lib/austraits_util.py:48-86 | building a record raises exactly when a label cannot be read or `source_id` is neither "nan" nor text |
| AusTraits.CreateRecord | lib/austraits_util.py:48-86 | the in-place build gives the record AusTraitsRecord describes, or its exception |
| AusTraits.AddSources | lib/austraits_util.py:66-74 | the source branch adds the labels and the note as WithSources says, and raises exactly when the labels cannot be read |
| AusTraits.AddRest | lib/austraits_util.py:75-85 | the weight, the normalised value and the location notes are set as the three stage functions say |
| AusTraits.CopyKeys | lib/austraits_util.py:64-65 | the copy loop gives what CopyInfo says |
| AusTraits.AppendSources | lib/austraits_util.py:67-73 | the loop over the source ids appends their labels to the sources as Listed says, or raises as SourceLabels does |

## Left out

- Connecting to the database, committing and closing: psycopg2 I/O. The rows `validate_and_update_site_records` fetches are a parameter. `rowcount` of the n-th statement is a parameter function.
- `validate_and_update_site_records` returns the visits it fetches again after the commit (`lib/firevegdb.py:134-143`). That second database read is not modelled, so ValidateAndUpdate returns the sites queried, the statements and the count instead.
- SiteVisits.ValidateAndUpdate: called without `useconn`, the function raises NameError before it reads any record, because `params` is not defined in `lib/firevegdb.py` (line 80). The model assumes a connection is passed.
- What the database does with an empty `IN ()` list of sites: it is a database error.
- `print` output, including the dry-run printout and the counts. The statements are returned instead.
- BatchUpsert.Mogrify: the SQL text psycopg2 renders, its quoting and its bytes decoding. These belong to the library; a `Query` datatype stands for the statement.
- BatchUpsert.PutGeom: replacing `'GEOMSTR'` in the rendered query text. It is modelled on the quoted values, so a `'GEOMSTR'` inside another column's text is not replaced.
- `batch_upsert` with `keycol` given as a string instead of a list: the model takes a list of column names.
- Floating point: a float is known only by the text `str()` gives for it. Python's `1 == 1.0` and NaN comparisons are not modelled.
- `isnumeric`, `capitalize` and the regular-expression classes `\d` and `\w` are ASCII. White space is Python's `str.isspace()` set. `bool` is not an `int` subtype in the model. `int()` on text with underscores is not accepted.
- The calendar validity of a date: a date is a year/month/day triple, and `datetime(y, 1, 1)` is checked only for its year range.
- `repr` of a string ignores escaping and quote choice.
- pybtex internals: `Person.__str__`, `last_names`, and case-insensitive entry keys are given strings and a map.
- pandas DataFrame filtering: the species list is a sequence of rows.
- `trait_summary`: display only.
- `import_records_from_workbook`: openpyxl loading.
- The second `validate_and_update_site_records` in `lib/fireveg.py`: it cannot run as written (no database import, undefined `params`) and duplicates the one in `lib/firevegdb.py`.
- `dbquery`, `lib/firevegsummary.py` and `lib/firevegxport.py`: queries for display, pandas and floating point.
- SiteVisits.ValidateAndUpdate: only the records at the kept positions are updated. When two equal dicts are the same object in Python, writing one changes the other, and that aliasing is not modelled.
- An out-of-range column index (Python `IndexError` on `item[...]`) is read as an empty cell.
- Switch entries of the wrong type are excluded by each builder's precondition on its switch.
- NSW trait records are a record datatype with optional fields. Python dict key order, which does not affect dict equality, is not modelled for them.
