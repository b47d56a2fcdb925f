# Student mental-health intake demo — Dafny model

This project models the core of a small browser app. Students use it to submit an anonymous
intake form (issue, urgency, preferred response, consent level). A staff dashboard lists,
filters, sorts, flags and answers the submissions. Everything lives in the browser's
local storage. The model covers:

- **the storage layer**: JSON-encoded lists of submissions and events under two keys;
  tolerant parsing; prepending a submission; status updates by id; event logging;
  clearing; seeding three demo records; CSV export with field quoting;
- **the dashboard**: the text/urgency/consent filter; the three sort orders; the rule
  for when the Flag and Respond buttons are enabled; the handlers behind the buttons;
- **the intake draft context**: loading the draft from storage; the updates the form
  pages make; reset; the two demo submit operations; persisting the draft;
- **the language context**: normalising the stored language; switching it; the
  translation lookup with its fallback to the key;
- **the date picker**: turning `YYYY-MM-DD` into `DD/MM/YYYY`.

Local storage is the model's one mutable object, the class `Storage.Store`, with a
`map<string, string>` of items. React state (the draft, the current language, the
dashboard's list) is passed in and returned as values. `uuidv4()` and `Date.now()`
become method parameters. `JSON.stringify`/`JSON.parse` become an abstract
`Json.Codec`. Round-trip results assume it is lawful: decoding an encoding gives back
the value, and an encoding is never empty.

Modules: `Wrappers` (Option), `Types` (the records of `src/types.ts`), `Text` (join,
split, trim, lower-case, substring search, decimal digits), `Json`, `Storage`, `Csv`,
`Dashboard`, `SubmissionContext`, `LanguageContext`, `DatePicker`.

Points where the code behaves differently from what one might expect:

- Each call to `seedDemoData` puts its three records in front of the stored list,
  oldest first (`Storage.DemoExamples`: the timestamps increase). So storage is not
  always newest-first. Only the dashboard's sort imposes an order.
- Forward-only status changes (new → flagged → responded) hold only when record ids
  are unique. Status updates go by id, so a responded record that shares its id with
  a new one is sent back to "flagged" by the new record's enabled Flag button
  (`Dashboard.DuplicateIdReopens`). Unique ids come from `uuidv4()`.
- `submit` and `submitWithData` ignore the draft. They always store the same demo
  record; `submitWithData` takes over only the response preference.
- The date picker prints `undefined` for a missing part: `"2024"` is shown as
  `undefined/undefined/2024`. A value that already contains `/` breaks the two-slash
  shape of the display.

## Model

| member | source | states |
|---|---|---|
| Wrappers.Option.GetOr | src/utils/storage.ts:101 | the value when present, the default when absent (`??`) |
| Types.UrgencyName | src/types.ts:1 | the wire name of each urgency |
| Types.ConsentName | src/types.ts:2 | the wire name of each consent level (`crisis_only`, `none`) |
| Types.ResponsePrefName | src/types.ts:3 | the wire name of each response preference |
| Types.ModeName | src/types.ts:8 | the wire name of each mode |
| Types.StatusName | src/types.ts:16 | the wire name of each status |
| Text.Split | src/components/DatePicker.tsx:23 | `split`: at least one part, no part holds the separator, one more part than separators |
| Text.JoinSplit | src/components/DatePicker.tsx:23 | joining the parts of a split with the separator gives back the string |
| Text.SplitJoin | src/components/DatePicker.tsx:23 | splitting a join of separator-free parts gives back the parts |
| Text.SplitWithout | src/components/DatePicker.tsx:23 | a string without the separator splits into itself alone |
| Text.SplitAfterPiece | src/components/DatePicker.tsx:23 | a separator-free piece, then the separator, splits off as the first part |
| Text.CountConcat | src/components/DatePicker.tsx:24 | separator counts add up over concatenation |
| Text.CountAbsent | src/components/DatePicker.tsx:24 | a string without the character counts zero of it |
| Text.TrimStart | src/pages/Dashboard.tsx:23 | a suffix of the input whose removed prefix is all whitespace, not starting with whitespace |
| Text.TrimEnd | src/pages/Dashboard.tsx:23 | a prefix of the input whose removed suffix is all whitespace, not ending with whitespace |
| Text.Trim | src/pages/Dashboard.tsx:23 | `trim()`: the piece of the input left once the whitespace before and after it is cut, with no whitespace at either end, empty exactly when the input is all whitespace |
| Text.Lower | src/pages/Dashboard.tsx:23 | `toLowerCase()`: same length, each character lower-cased |
| Text.Contains | src/pages/Dashboard.tsx:29 | `includes`: true exactly when the needle occurs at some position |
| Text.ShiftOccurs | src/pages/Dashboard.tsx:29 | an occurrence not at position 0 is an occurrence in the tail |
| Text.NatDecimalRoundTrip | src/utils/storage.ts:68 | reading back the decimal digits `String(n)` writes gives `n` |
| Storage.SafeParse | src/utils/storage.ts:7-14 | an absent or empty item, or one that fails to parse, gives the fallback; otherwise the parsed value |
| Storage.SafeParseEncoded | src/utils/storage.ts:7-14 | parsing what was stored gives back the stored value |
| Storage.Store.constructor | src/utils/storage.ts:4-5 | a store holding the given items and codecs, valid when both codecs are lawful |
| Storage.Store.GetItem | src/utils/storage.ts:17 | `getItem`: present exactly when the key is stored, and then its value |
| Storage.Store.SetItem | src/utils/storage.ts:21 | `setItem`: only that key changes, and it gets the value |
| Storage.Store.RemoveItem | src/utils/storage.ts:52-53 | `removeItem`: only that key is dropped |
| Storage.Store.GetSubmissions | src/utils/storage.ts:16-18 | the parsed submission list, empty when the key is absent |
| Storage.Store.GetEvents | src/utils/storage.ts:35-37 | the parsed event list, empty when the key is absent |
| Storage.Store.SetSubmissions | src/utils/storage.ts:20-22 | the stored list becomes `list`, only the submissions key changes, events unchanged |
| Storage.Store.AddSubmission | src/utils/storage.ts:24-28 | the new record is put in front of the stored list; events unchanged |
| Storage.WithStatus | src/utils/storage.ts:31 | same length; every record with the id gets the status and nothing else changes; other records unchanged |
| Storage.WithStatusUnknownId | src/utils/storage.ts:30-33 | an id that no record has leaves the list unchanged |
| Storage.WithStatusKeepsRecords | src/utils/storage.ts:31 | a status update changes no field but the status |
| Storage.WithStatusLastWins | src/utils/storage.ts:30-33 | two updates of the same id leave the second status |
| Storage.FlagThenRespond | src/utils/storage.ts:30-33 | with unique ids, flag then respond leaves that record responded and the rest unchanged |
| Storage.Store.UpdateSubmissionStatus | src/utils/storage.ts:30-33 | the stored list becomes its status update by id; events unchanged |
| Storage.Store.LogEvent | src/utils/storage.ts:39-49 | one event with the given id, time, type and payload is appended; submissions unchanged |
| Storage.Store.ClearData | src/utils/storage.ts:51-54 | exactly the two keys are removed and both lists read back empty |
| Storage.DemoExamples | src/utils/storage.ts:121-159 | three new anonymous records with the given ids, covering every consent level and every urgency, timestamps 45, 20 and 5 minutes before now in that order |
| Storage.SeedEvents | src/utils/storage.ts:162-164 | one `submitted` event per example, carrying its id and `seeded: true` |
| Storage.Store.SeedDemoData | src/utils/storage.ts:119-165 | the examples go in front of the stored list, their events are appended in order, and no other key changes |
| Storage.SeedTwice | src/utils/storage.ts:119-165 | seeding twice adds six records and six seeded `submitted` events |
| Csv.DoubleQuotes | src/utils/storage.ts:70 | doubling quotes never shortens the text |
| Csv.Quote | src/utils/storage.ts:69-72 | text is left as is exactly when it holds no quote, comma or newline; otherwise it is wrapped in quotes with inner quotes doubled |
| Csv.CsvEscape | src/utils/storage.ts:66-73 | null gives the empty field; any other value is its string form, quoted as `Quote` says |
| Csv.UndoubleDouble | src/utils/storage.ts:70 | undoubling quotes reverses doubling them |
| Csv.UnquoteQuote | src/utils/storage.ts:66-73 | unquoting an escaped field gives back the text |
| Csv.Fields | src/utils/storage.ts:91-102 | one non-null value per header, in header order |
| Csv.EscapeAll | src/utils/storage.ts:103 | each value escaped in place |
| Csv.RowLines | src/utils/storage.ts:90-105 | one record line per row, in order |
| Csv.PushRecordLines | src/utils/storage.ts:90-105 | the loop appends the rows' record lines after the lines it started with |
| Csv.SubmissionsToCsv | src/utils/storage.ts:75-107 | the export is the header line followed by one record line per row, joined by newlines |
| Csv.CsvEmpty | src/utils/storage.ts:89 | with no rows the export is the header line alone |
| Csv.CsvStartsWithHeader | src/utils/storage.ts:89-106 | every export starts with the header line, followed by a newline when there are rows |
| Csv.StudentInitiated | src/utils/storage.ts:95 | the `student_initiated` column is `true` exactly for anonymous records |
| Csv.TimestampUnquoted | src/utils/storage.ts:93 | the timestamp column is the plain decimal form of the timestamp |
| Csv.ReadQuoted | src/utils/storage.ts:70 | reading a quoted field consumes input |
| Csv.ReadQuotedDoubled | src/utils/storage.ts:70 | a doubled-quote body followed by a closing quote reads back as the text |
| Csv.ParseOneField | src/utils/storage.ts:66-73 | an escaped field alone parses as that one field |
| Csv.PlainFieldThenRest | src/utils/storage.ts:104 | an unquoted field then a comma parses as that field followed by the rest's fields |
| Csv.QuotedFieldThenRest | src/utils/storage.ts:104 | a quoted field then a comma parses as that field followed by the rest's fields |
| Csv.ParseFieldThenRest | src/utils/storage.ts:104 | any escaped field then a comma parses as that field followed by the rest's fields |
| Csv.QuoteAll | src/utils/storage.ts:103 | each text escaped in place |
| Csv.ParseJoinQuoted | src/utils/storage.ts:103-104 | a comma-joined line of escaped fields parses back into those fields, commas, quotes and newlines included |
| Csv.DisplayAll | src/utils/storage.ts:68 | each value's string form, in place |
| Csv.RowRoundTrip | src/utils/storage.ts:90-105 | a record line parses back into the string forms of the record's eleven values |
| Dashboard.Filter | src/pages/Dashboard.tsx:25-31 | keeps exactly the records that pass all three filters, each with its original multiplicity |
| Dashboard.InOrderTotal | src/pages/Dashboard.tsx:32-34 | any two records are comparable under each sort order |
| Dashboard.InOrderTransitive | src/pages/Dashboard.tsx:32-34 | each sort order is transitive |
| Dashboard.SortInPlace | src/pages/Dashboard.tsx:32-34 | the array ends up sorted by the chosen order and is a permutation of what it held |
| Dashboard.SortRows | src/pages/Dashboard.tsx:32-34 | the rows come back sorted and as a permutation of the input |
| Dashboard.SameElements | src/pages/Dashboard.tsx:32-34 | a permutation has the same members |
| Dashboard.SortedMeaning | src/pages/Dashboard.tsx:24-34 | sorted means newest first, oldest first, or by urgency high to low with newer first on ties |
| Dashboard.FilterAndSort | src/pages/Dashboard.tsx:22-36 | the rows are exactly the submissions passing the trimmed, lower-cased search and both filters, with multiplicities, in the chosen order |
| Dashboard.BlankSearchPassesAll | src/pages/Dashboard.tsx:29 | a search of only whitespace filters nothing out |
| Dashboard.SearchIgnoresUrgencyAndMode | src/pages/Dashboard.tsx:28 | the searched text does not depend on urgency or mode |
| Dashboard.UrgencyFilter | src/pages/Dashboard.tsx:26-27 | "all" keeps every record; an urgency choice keeps exactly the records with that urgency; a consent choice keeps exactly the records with that consent level |
| Dashboard.SeededFilters | src/pages/Dashboard.tsx:25-31 | among the seeded examples, only the first is high urgency and only the third has no consent |
| Dashboard.SeededUrgencyOrder | src/pages/Dashboard.tsx:34 | sorted by urgency, the seeded examples keep their stored order: high, medium, low |
| Dashboard.ButtonTransitions | src/pages/Dashboard.tsx:160-161 | an enabled button moves a status exactly new→flagged, new→responded or flagged→responded; this always raises its rank; a responded record has no enabled button |
| Dashboard.EnabledClickMovesForward | src/pages/Dashboard.tsx:160-161 | with unique ids, clicking an enabled button raises that record's status and changes no other record |
| Dashboard.DuplicateIdReopens | src/pages/Dashboard.tsx:38-43 | with a shared id, the Flag button of a new record turns a responded record back to flagged |
| Dashboard.OnFlag | src/pages/Dashboard.tsx:38-43 | the record with the id is flagged, one `flag_case` event with `{id}` is logged, no other key changes, and the refreshed list is returned |
| Dashboard.OnRespond | src/pages/Dashboard.tsx:45-50 | the record with the id is responded, one `respond_case` event with `{id}` is logged, no other key changes, and the refreshed list is returned |
| Dashboard.OnClear | src/pages/Dashboard.tsx:61-67 | if confirmed, both keys are removed and the refreshed list is empty; otherwise storage is untouched and the list on screen is kept as it was |
| Dashboard.OnSeed | src/pages/Dashboard.tsx:69-73 | the seeded examples go in front of the stored list, their events are appended, no other key changes, and the refreshed list is returned |
| SubmissionContext.LoadDraft | src/context/SubmissionContext.tsx:37-46 | an absent, empty or unparsable draft gives `{mode: anonymous}`; otherwise the parsed fields, with the mode defaulting to anonymous |
| SubmissionContext.Reset | src/context/SubmissionContext.tsx:61 | whatever the draft held, it becomes `{mode: anonymous}` |
| SubmissionContext.ResetIsFreshStart | src/context/SubmissionContext.tsx:61 | a reset draft equals the draft loaded when nothing is stored |
| SubmissionContext.SetMode | src/context/SubmissionContext.tsx:51 | only the mode changes, to the given one |
| SubmissionContext.Override | src/context/SubmissionContext.tsx:54 | a key present in the update wins; an absent key keeps the draft's value |
| SubmissionContext.UpdateIntake | src/context/SubmissionContext.tsx:53-54 | each field the update carries is overwritten and every other field kept; mode and consent never change |
| SubmissionContext.UpdateIntakeEmpty | src/context/SubmissionContext.tsx:53-54 | an update with no keys changes nothing |
| SubmissionContext.UpdateIntakeCompose | src/context/SubmissionContext.tsx:53-54 | two updates in a row are one update with the merged keys, the later winning |
| SubmissionContext.WithConsent | src/context/SubmissionContext.tsx:57 | only the consent level changes, to the given one |
| SubmissionContext.SetConsent | src/context/SubmissionContext.tsx:56-59 | the draft gets the consent level and one `set_consent` event with `{level}` is logged; submissions and every other key unchanged |
| SubmissionContext.DemoSubmission | src/context/SubmissionContext.tsx:65-76 | a new record with the given id, time and response preference |
| SubmissionContext.Submit | src/context/SubmissionContext.tsx:63-80 | always returns the fixed demo record, stores it in front of the list and logs one `submitted` event with `{id, mode}`; no other key changes |
| SubmissionContext.SubmitWithData | src/context/SubmissionContext.tsx:82-99 | as `submit`, with the override's response preference when given and `message` otherwise; no other key changes |
| SubmissionContext.PersistDraft | src/context/SubmissionContext.tsx:106-112 | only the draft key changes, to the encoded draft |
| SubmissionContext.LoadPersistedDraft | src/context/SubmissionContext.tsx:37-46 | a persisted draft loads back unchanged |
| LanguageContext.Normalize | src/context/LanguageContext.tsx:22-28 | `"zh"` gives Chinese; `"en"` and anything else give English |
| LanguageContext.NormalizeCode | src/context/LanguageContext.tsx:23-24 | a stored language code reads back as that language |
| LanguageContext.LoadLanguage | src/context/LanguageContext.tsx:21-29 | a valid stored code is returned and storage untouched; anything else stores `"en"` and returns English; afterwards the key holds the returned language's code |
| LanguageContext.SetLanguage | src/context/LanguageContext.tsx:474-477 | the language becomes the given one and only its code is written, so a later load reads it back |
| LanguageContext.T | src/context/LanguageContext.tsx:479-481 | the current table's entry when present and non-empty, otherwise the key itself |
| LanguageContext.TNeverBlank | src/context/LanguageContext.tsx:480 | a non-empty key never translates to empty text |
| DatePicker.DisplayValue | src/components/DatePicker.tsx:20-29 | an empty value shows the `dd/mm/yyyy` placeholder |
| DatePicker.DisplayReordersDate | src/components/DatePicker.tsx:23-24 | `Y-M-D` is shown as `D/M/Y` |
| DatePicker.DisplayWithoutDash | src/components/DatePicker.tsx:23-24 | a value without a dash shows as `undefined/undefined/` followed by the value |
| DatePicker.DisplayIgnoresExtraParts | src/components/DatePicker.tsx:23 | parts after the third are dropped |
| DatePicker.DisplayHasTwoSlashes | src/components/DatePicker.tsx:20-29 | a value without `/` is always shown with exactly two `/` |
| DatePicker.TwoSlashes | src/components/DatePicker.tsx:24 | three slash-free parts joined by `/` hold exactly two slashes |
| DatePicker.NoSlashInParts | src/components/DatePicker.tsx:23 | the parts of a split hold no character missing from the value |
| DatePicker.HandleDateChange | src/components/DatePicker.tsx:31-33 | the input's raw value is forwarded unchanged |

## Left out

- Rendering, routing, the QR-code components, the chat, appointment, resources and share pages, and file downloads (`downloadJSON`, `downloadCSV`): they are presentation or browser I/O.
- The JSON encoder and decoder: they are an abstract codec. Values `JSON.parse` would accept that do not fit the declared types (a wrongly typed field, an array where a record is expected) are not represented.
- `Text.Lower` lower-cases only ASCII letters; `toLowerCase` also maps other Unicode letters.
- `Dashboard.FilterAndSort`, `Dashboard.SortRows`, `Dashboard.SortInPlace`: the sort is proved to order the rows and to permute them. That it keeps the input order of equal records (JavaScript's sort is stable) is not stated.
- Storage write failures, quota errors and concurrent tabs: every `setItem` is taken to succeed. The draft effect's swallowed serialisation error is therefore not modelled.
- The translation tables' contents: `LanguageContext.T` takes the tables as a parameter. A key that names an inherited object property (such as `constructor`) is not modelled.
- `SubmissionContext.UpdateIntake`: a key explicitly set to `undefined` in the update, which the spread copies, is not modelled; a key is either present with a value or absent.
- `SubmissionContext.LoadDraft`: a stored draft whose `mode` is explicitly `null` is not modelled (the spread would copy the `null`); a decoded mode is either a valid mode or absent.
- `SubmissionContext.UpdateIntake`: the intake page sends `urgency: ""` (cast to an urgency) when none was picked; `IntakePatch` holds only the three valid urgencies, so that empty value is not represented.
- `SubmissionContext.SubmitWithData`: an override preference that is an empty string (falsy for `||`) cannot occur, since the preference is one of the three valid values.
- The optional `displayName` of a submission is never set by the code and is not modelled.
- Timestamps are integers: `Date.now()` returns whole milliseconds, and fractional numbers are not modelled.
- The React state machinery (`useState`, `useMemo`, `useEffect`): state is passed and returned as values, and handlers return the refreshed list instead of setting it. The live-region messages set by the dashboard handlers are not modelled.
- `confirm()` in the clear handler is the `confirmed` parameter of `Dashboard.OnClear`.
