# Incident intake core of incident-copilot, in Dafny

This project models the deterministic core of incident-copilot, a service that takes a
free-form report of a security incident and prepares the NIS2 reporting package for it.
It covers three parts.

- The intake handler (`api/incident-intake.js`):
  - the required-field check;
  - reading the client's awareness time, an optional UTC-offset hint and the
    datetime-local form;
  - the three statutory deadlines (24 hours, 72 hours, 30 days);
  - the attachment check that limits count, size and name length;
  - the JSON answer.
- The prompt builder (`lib/prompts.js`): the fixed system text with the target schema
  of the three drafts, and the user payload.
- The report renderer and uploader (`lib/pdf.js`):
  - the layout of a report as a sequence of layout items (title, type line, rule,
    metadata, the sections of the report type, IoC table, flattened timeline,
    attachments note);
  - the loop that fills in missing metadata, renders each present draft and stores it
    under the intake's path.

JavaScript values are modelled as a `Json.Value` datatype. The operators the code
relies on are spelled out as functions: truthiness, `||`, `??`, `?.`, property
assignment, `String(...)`, `Number(...)`, `Object.entries`, `Array.prototype.join` and
`trim`. Dates are integers of milliseconds. `Date.UTC` and `toISOString` are written
out with the proleptic Gregorian calendar, and the round trip between day numbers and
civil dates is proved.

Parts of the code that update state step by step are imperative Dafny, each proved
equal to a specification function on which the lemmas are stated:

- `Awareness.ExtractOffset`, the candidate loop with early return;
- `Attachments.CollectFiles`, the filtering loop that throws on the first oversized
  entry;
- `PdfRender.PdfDoc`, a document class whose methods append layout items;
- `PdfUpload.BlobStore` and `PdfUpload.GenerateAndUploadPdfs`, the upload loop.

The clock (`Date.now()`, `new Date()`), the host's ISO date parser and the blob
store's answer are parameters.

What the code does, and the model with it:

- `collectFiles` checks the count, the size and the name of each attachment; it does
  not hash, store or type-check attachments;
- names are cut to their first 200 characters and otherwise kept as sent;
- the handler answers with fixed placeholder drafts; it neither calls a language model
  nor renders reports;
- `table` writes nothing, not even a placeholder, for a missing or empty IoC list;
- rendering throws when a timeline entry or a table row is null.

## Model

| member | source | states |
|---|---|---|
| JsCore.Trim | api/incident-intake.js:35 | `trim`: the text without its leading and trailing whitespace (pinned by TrimSlice, TrimEnds and TrimEmptyIffBlank) |
| JsCore.StringToNumber | api/incident-intake.js:26 | `Number` of a string: 0 for blank text, the value of a signed integer literal, the infinities for "Infinity", and NaN otherwise (BlankIsZero, NumberOfIntString) |
| JsCore.IntToString | api/incident-intake.js:35 | `String` of an integer: an optional minus sign and the decimal digits with no leading zero (IntStringLiteral, NatToStringValue) |
| JsCore.TrimSlice | api/incident-intake.js:35 | `trim` returns the slice of the input after the leading whitespace, and everything removed on either side is whitespace |
| JsCore.TrimEnds | api/incident-intake.js:35 | the trimmed text neither starts nor ends with whitespace |
| JsCore.TrimEmptyIffBlank | api/incident-intake.js:35-36 | text trims to "" exactly when it is all whitespace |
| JsCore.TrimIdempotent | api/incident-intake.js:35 | trimming twice is trimming once |
| JsCore.NatToStringValue | api/incident-intake.js:44 | the decimal spelling of a natural reads back as that natural |
| JsCore.IntStringLiteral | api/incident-intake.js:26 | `String(i)` is an optionally signed digit run whose value is i and that ends in a digit |
| JsCore.NumberOfIntString | api/incident-intake.js:26 | `Number(String(i))` is the finite integer `i` |
| JsCore.BlankIsZero | api/incident-intake.js:26 | `Number` of a whitespace-only string is 0, not NaN |
| Json.Truthy | api/incident-intake.js:88 | JavaScript truthiness: false exactly for undefined, null, false, 0 and "" |
| Json.Get | lib/pdf.js:136 | `v?.[k]` for the named, non-index keys the code reads: the object property read, and undefined on anything that is not an object (LookupFirst); index keys of arrays and strings, and a string's `length`, are not modelled |
| Json.Set | lib/pdf.js:139 | `o[k] = x` on an object: the key updated in place, or appended when new (GetAfterSet, StoreKeepsKeys, StoreAppends) |
| Json.ToJsString | api/incident-intake.js:35 | `String(v)`: "undefined", "null", "true"/"false", the digits of a number, the string itself, the comma-joined items of an array and "[object Object]" |
| Json.ArrayJoin | lib/pdf.js:116 | `join(sep)`: the items converted as `join` does, with undefined and null as "", separated by sep |
| Json.ToNumber | api/incident-intake.js:71 | `Number(v)`: NaN for undefined, 0 for null and false, 1 for true, the number itself, a string read by `StringToNumber`, and an array or object read through its `String` form (NumberOfNumberString) |
| Json.Lookup | api/incident-intake.js:25 | a property read gives the value of a field with that key, or undefined when no field has the key |
| Json.Or | api/incident-intake.js:87 | `a or b` is a when a is truthy and b otherwise |
| Json.Coalesce | lib/pdf.js:60 | `a ?? b` is a unless a is null or undefined, and b then |
| Json.GetAfterSet | lib/pdf.js:139 | after `o[k] = x`, `o[k]` is x and every other key reads as before |
| Json.StoreLookup | lib/pdf.js:147 | after storing x under a key the key reads x, and other keys read as before |
| Json.StoreKeepsKeys | lib/pdf.js:139 | assigning an existing key keeps the keys and their order |
| Json.StoreAppends | lib/pdf.js:147 | assigning a new key appends it at the end, which is JavaScript's property order for the named, non-index keys the code writes (integer-like keys, which JavaScript orders first, are not modelled) |
| Json.StoreSame | lib/pdf.js:139 | writing back the value a key already has leaves the object unchanged |
| Json.LookupFirst | lib/pdf.js:136 | a key reads as its first field's value |
| Json.Entries | lib/pdf.js:106 | `Object.entries` throws exactly on null and undefined |
| Json.NumberOfNumberString | api/incident-intake.js:71 | a number spelled out and read back is itself |
| CivilTime.DaysFromCivil | api/incident-intake.js:45 | the day number of a proleptic Gregorian date counted from 1970-01-01 (inverted by CivilRoundTrip) |
| CivilTime.MakeDay | api/incident-intake.js:45 | ECMAScript MakeDay: the month is carried into the year, then the date is counted on from the first of that month (DayRollsOver, MonthRollsOver) |
| CivilTime.DateUtc | api/incident-intake.js:45 | `Date.UTC(y, m, d, h, min)`: two-digit years read as 1900 to 1999, the month 0-based, and the fields combined into milliseconds since the epoch (DateUtcParts, DateUtcCivil, TwoDigitYears) |
| CivilTime.CivilRoundTrip | api/incident-intake.js:13 | every valid civil date survives the trip to a day number and back |
| CivilTime.EraBounds | api/incident-intake.js:13 | within one 400-year era, a day has a year of era in 0..399 and a day of year in 0..365 |
| CivilTime.EraInverse | api/incident-intake.js:13 | year of era and day of year are recovered from the day of the era |
| CivilTime.MonthInverse | api/incident-intake.js:13 | the March-based month and day are recovered from the day of the year |
| CivilTime.CivilFromDays | api/incident-intake.js:13 | the civil date of any day number has a month in 1..12 and a day in 1..31 |
| CivilTime.DateUtcParts | api/incident-intake.js:45 | `Date.UTC` of a valid date and clock has that date's day number and that time of day |
| CivilTime.DateUtcCivil | api/incident-intake.js:45 | reading the date back from the `Date.UTC` instant gives the date and the clock |
| CivilTime.DigitsArePadded | api/incident-intake.js:42-44 | a run of two or four digits is the zero-padded spelling of its value |
| CivilTime.ToIsoString | api/incident-intake.js:13 | `toISOString` always ends in a dot, three digits and "Z" |
| Deadlines.AddHours | api/incident-intake.js:11 | `addHours`: the instant moved by that many hours of milliseconds (HoursAreDays) |
| Deadlines.AddDays | api/incident-intake.js:12 | `addDays`: the instant moved by that many 24-hour days (ShiftByDays) |
| Deadlines.ToISO | api/incident-intake.js:13 | `toISO`: `toISOString` with the ".mmm" before the "Z" removed (ToISOShape, ToISOAt) |
| Deadlines.DueFor | api/incident-intake.js:95-99 | the three deadlines: the `toISO` texts of the instants 24 hours, 72 hours and 30 days after awareness (DueShape, DueOrdered) |
| Deadlines.ToISOShape | api/incident-intake.js:13 | `toISO` removes exactly the milliseconds and gives "YYYY-MM-DDThh:mm:ssZ" of the instant's day and time |
| Deadlines.ToISOAt | api/incident-intake.js:13 | `toISO` of an instant is the text of its day number and its time of day |
| Deadlines.ToISOIgnoresMillis | api/incident-intake.js:13 | `toISO` does not depend on the milliseconds of the instant |
| Deadlines.DateUtcIso | api/incident-intake.js:13 | `toISO(Date.UTC(Y, M-1, D, h, m))` of a valid date with a year from 100 to 9999 and a valid clock is "YYYY-MM-DDThh:mm:00Z" |
| Deadlines.ShiftByDays | api/incident-intake.js:11-13 | an instant moved by whole days keeps its time of day, and its date moves by that many days |
| Deadlines.HoursAreDays | api/incident-intake.js:96-97 | 24 and 72 hours are 1 and 3 days |
| Deadlines.DueShape | api/incident-intake.js:95-99 | the three deadlines are 1, 3 and 30 calendar days after the awareness day, at the same time of day |
| Deadlines.DueOrdered | api/incident-intake.js:95-99 | awareness comes before the early warning, which comes before the notification, which comes before the final report |
| Awareness.Offset | api/incident-intake.js:16-31 | `extractOffset`: nothing for a falsy body, else the first candidate field whose value is not undefined, null or "" and reads as a finite number, with its minutes times the field's sign (OffsetPriority, OffsetAbsent) |
| Awareness.IsLocalPattern | api/incident-intake.js:42 | the datetime-local pattern: four digits, "-", two digits, "-", two digits, "T", two digits, ":", two digits, and nothing else |
| Awareness.MatchLocal | api/incident-intake.js:42-44 | the five numbers of a text that matches the pattern, and nothing for any other text (MatchLocalSpelling) |
| Awareness.Resolve | api/incident-intake.js:36-59 | the awareness decision: now for empty text; else, after the first space becomes "T", the datetime-local fields read as UTC minus the offset when there is one, else the ISO parser's instant, else now (ResolveReceived, FallbackToNow, ParsedIsoUsed, OffsetOnlyWithHint) |
| Awareness.ParseAwareness | api/incident-intake.js:34-60 | `parseAwareness`: the trimmed raw text and the offset of the body, resolved by `Resolve` (ReceivedIsTrimmed, BlankAwarenessIsNow) |
| Awareness.HintMinutes | api/incident-intake.js:25-27 | a hint is usable exactly when it is not undefined, null or "" and `Number` of it is finite, and then gives that number |
| Awareness.ExtractOffset | api/incident-intake.js:16-31 | the loop returns what `Offset` gives: nothing for a falsy body, else the first usable candidate |
| Awareness.FirstHintAt | api/incident-intake.js:24-28 | the first usable candidate is taken, with raw minutes and minutes times its sign |
| Awareness.FirstHintFrom | api/incident-intake.js:24-28 | a returned hint comes from a usable candidate whose predecessors were all skipped |
| Awareness.FirstHintNone | api/incident-intake.js:24-30 | no hint is returned exactly when every candidate is skipped |
| Awareness.OffsetFromField | api/incident-intake.js:17-29 | a hint from field i means the body is truthy, fields before i were skipped and field i is usable |
| Awareness.OffsetPriority | api/incident-intake.js:17-29 | field i is used exactly when the body is truthy, the earlier fields were skipped and field i is usable; applied minutes are raw minutes times the field's sign |
| Awareness.OffsetAbsent | api/incident-intake.js:17-30 | no offset exactly when the body is falsy or every hint is skipped |
| Awareness.ZeroHintIsUsed | api/incident-intake.js:25-28 | a hint of 0 is used although 0 is falsy |
| Awareness.TimezoneOffsetIsNegated | api/incident-intake.js:21-28 | a `getTimezoneOffset` hint has its sign flipped |
| Awareness.MatchLocalSpelling | api/incident-intake.js:42-44 | the captured numbers of a datetime-local text spell the text back |
| Awareness.ReplaceFirstSpace | api/incident-intake.js:38 | the replacement keeps the length of the text |
| Awareness.ReplaceFirstSpaceChanges | api/incident-intake.js:38 | `replace(" ", "T")` changes only the first space |
| Awareness.ReplaceFirstSpaceNoSpace | api/incident-intake.js:38 | a text without spaces is unchanged |
| Awareness.ResolveReceived | api/incident-intake.js:36-59 | `received` is always the trimmed raw text |
| Awareness.ReceivedIsTrimmed | api/incident-intake.js:35 | the received text has no whitespace at either end |
| Awareness.FallbackToNow | api/incident-intake.js:36-59 | the current time is used exactly for an empty text (fallback_now) and for a text neither local nor parsable (invalid_fallback_now) |
| Awareness.ParsedIsoUsed | api/incident-intake.js:56-57 | a text the ISO parser accepts that is not datetime-local gives the parsed instant with source parsed_iso |
| Awareness.BlankAwarenessIsNow | api/incident-intake.js:35-36 | a whitespace-only awareness string counts as missing |
| Awareness.OffsetOnlyWithHint | api/incident-intake.js:46-52 | an offset is reported exactly in the local branch that used a hint, and it is that hint's applied minutes |
| Awareness.LocalWithHint | api/incident-intake.js:46-49 | a local text with a hint is the fields read as UTC minus the applied minutes, with source "datetime-local(<field>)" |
| Awareness.LocalAssumedUtcInstant | api/incident-intake.js:52 | without a hint a local text is read as UTC |
| Awareness.OffsetShiftsMinutes | api/incident-intake.js:45-48 | subtracting the offset is the same as moving the minute field of `Date.UTC` |
| Awareness.ShiftedClock | api/incident-intake.js:48 | an offset that keeps the clock within the day gives the same date at the clock moved back |
| Awareness.ClockRollsOver | api/incident-intake.js:44-45 | minutes and hours past their range carry into the next field instead of being rejected |
| Awareness.DayRollsOver | api/incident-intake.js:44-45 | a day past the month's end counts on from the first of the month |
| Awareness.MonthRollsOver | api/incident-intake.js:44-45 | month 13 is January of the next year |
| Awareness.TwoDigitYears | api/incident-intake.js:44-45 | years 0 to 99 are taken as 1900 to 1999 |
| Awareness.FieldsIso | api/incident-intake.js:45 | valid local fields read as UTC come back from `toISO` as their spelling plus ":00Z" |
| Awareness.AssumedUtcIso | api/incident-intake.js:42-52 | a valid datetime-local text read as UTC comes back from `toISO` as the text plus ":00Z" |
| Awareness.ShiftedIso | api/incident-intake.js:48 | an offset that keeps the clock in the day gives the same date with the clock moved back |
| Awareness.LocalWithHintIso | api/incident-intake.js:46-49 | the instant of a local text with such a hint prints as the text with its clock moved back |
| Awareness.HintExample | api/incident-intake.js:46-49 | 2025-10-19 12:00 with a hint of 120 minutes is 2025-10-19T10:00:00Z |
| Awareness.AssumedUtcRoundTrip | api/incident-intake.js:52 | without a hint a valid local text comes back from `toISO` as the normalised text plus ":00Z" |
| Attachments.FileName | api/incident-intake.js:69 | the name: `String(f?.name || "")` cut to 200 characters |
| Attachments.FileType | api/incident-intake.js:70 | the type: `String(f?.type || "") || "unknown"`, falling back to "unknown" when the text would be empty (TypeDefault) |
| Attachments.FileSize | api/incident-intake.js:71 | the size: `Number(f?.size || 0)` (NonNumericSizeKept, SizeLimit) |
| Attachments.Run | api/incident-intake.js:67-77 | the loop over verdicts: skip, stop with the too-large message, or prepend the kept record to the rest (RunOutcome, RunFails) |
| Attachments.Collect | api/incident-intake.js:63-78 | `collectFiles`: the count error for more than three entries, else the loop over the judged entries (CollectOutcome) |
| Attachments.SliceTo | api/incident-intake.js:69 | `slice(0, n)` is a prefix of at most n characters, the whole text when shorter |
| Attachments.Judge | api/incident-intake.js:73-75 | an entry is skipped exactly without name or data; it is too large exactly when not skipped and over 3 MiB; otherwise it is kept with its record |
| Attachments.Verdicts | api/incident-intake.js:68-75 | one verdict per entry, each the judgement of that entry |
| Attachments.KeepIsWellFormed | api/incident-intake.js:69-75 | a kept record has a name of 1 to 200 characters, a non-empty type and a size not greater than 3 MiB; a size that does not read as a number is NaN and passes this test (NonNumericSizeKept) |
| Attachments.CollectFiles | api/incident-intake.js:63-78 | the loop returns what `Collect` gives |
| Attachments.RunStep | api/incident-intake.js:68-76 | one turn of the loop skips, throws or pushes exactly as the body tests |
| Attachments.RunSucceeds | api/incident-intake.js:68-77 | with no oversized entry the loop yields the kept records |
| Attachments.RunFails | api/incident-intake.js:74 | the first oversized entry aborts with its name in the message |
| Attachments.RunFailureCause | api/incident-intake.js:74 | every failure comes from a first oversized entry |
| Attachments.RunOutcome | api/incident-intake.js:68-77 | the loop succeeds exactly when no entry is oversized, and then returns the kept records |
| Attachments.KeptAtPositions | api/incident-intake.js:68-75 | record k of the result is the record of the entry at the k-th kept position |
| Attachments.PositionsIncrease | api/incident-intake.js:68-75 | the kept positions strictly increase |
| Attachments.PositionsComplete | api/incident-intake.js:68-75 | every kept entry's position is listed |
| Attachments.KeptIsSubsequence | api/incident-intake.js:68-77 | the result is an order-preserving subsequence of the entries that drops nothing kept |
| Attachments.KeptShorter | api/incident-intake.js:68-77 | no more records than entries, each well formed |
| Attachments.CollectOutcome | api/incident-intake.js:63-78 | succeeds exactly with at most three entries and none oversized; then returns the kept records; otherwise fails on the count or on the first oversized entry |
| Attachments.CollectBounds | api/incident-intake.js:64-75 | at most three records, each with a name of 1 to 200 characters, a non-empty type and a size not greater than 3 MiB, where a NaN size passes |
| Attachments.CollectIsSubsequence | api/incident-intake.js:65-77 | the result lists the records of the kept entries in input order, and every kept entry is represented |
| Attachments.TooManyFiles | api/incident-intake.js:66 | the count error occurs exactly for more than three entries |
| Attachments.NonArrayIsEmpty | api/incident-intake.js:65 | anything but an array counts as no files |
| Attachments.OversizedEmptySlotIgnored | api/incident-intake.js:73-74 | an entry without data is skipped whatever size it declares |
| Attachments.SizeLimit | api/incident-intake.js:64-74 | exactly 3 MiB is kept and one byte more is too large |
| Attachments.SingleFileLimit | api/incident-intake.js:64-77 | a single entry of exactly 3 MiB is accepted and one byte more rejects the batch |
| Attachments.NonNumericSizeKept | api/incident-intake.js:71-75 | an entry with name and data whose size is a text that does not read as a number has size NaN, which is not greater than 3 MiB, so the entry is kept with size NaN |
| Attachments.NonNumericIsNaN | api/incident-intake.js:71 | `Number("abc")` is NaN, so "abc" is such a size |
| Attachments.NameTruncated | api/incident-intake.js:69 | a name longer than 200 characters is cut to its first 200 |
| Attachments.TypeDefault | api/incident-intake.js:70 | the type falls back to "unknown" exactly when it would be empty |
| Intake.Summarize | api/incident-intake.js:105-112 | the summary of an intake: its id, the received text, the source text and the offset of the parsed awareness, the `toISO` text of its instant, the deadlines of that instant and the accepted files (SummaryTimes) |
| Intake.Handle | api/incident-intake.js:82-119 | the POST handler: 400 for missing fields, 400 with the attachment error, else 200 with the summary (RequiredFields, FileOutcome, AcceptedIsSummary) |
| Intake.RequiredFields | api/incident-intake.js:87-90 | the missing-fields 400 answer occurs exactly when the contact e-mail or the free text is falsy |
| Intake.FileErrorsDiffer | api/incident-intake.js:66-89 | no attachment error reads like the missing-fields message |
| Intake.FileOutcome | api/incident-intake.js:101-105 | with both fields the answer is 200 exactly when the files are accepted, else 400 with the attachment error |
| Intake.SummaryTimes | api/incident-intake.js:95-110 | the answer's awareness time and deadlines are the awareness instant to the second and 1, 3 and 30 days after it |
| Intake.AcceptedIsSummary | api/incident-intake.js:87-118 | a 200 answer comes only from a body with both fields and accepted files, and is the summary of the parsed awareness and those files |
| Intake.SummaryValue | api/incident-intake.js:105-118 | the answer body is an object of eight properties whose fifth is the awareness time and whose seventh is an array with one entry per accepted file; its keys, values and file entries are stated by SummaryFields, SummaryValues and SummaryFiles |
| Intake.FileFields | api/incident-intake.js:112 | a file entry of the answer reads name, type and size as the accepted record: the size as a number, or null when it is not finite |
| Intake.DueFields | api/incident-intake.js:111 | the due object reads earlyWarning, incidentNotification and finalReport as the three deadline texts |
| Intake.SummaryFields | api/incident-intake.js:105-118 | the 200 answer has exactly the eight keys intakeId, awarenessReceived, awarenessSource, awarenessOffsetMinutes, awarenessTime, due, files and drafts, in that order |
| Intake.SummaryValues | api/incident-intake.js:105-118 | each key of the 200 answer reads as its part of the summary: the id, the received text, the source text, the offset minutes or null, the ISO time, the three deadlines and the placeholder drafts |
| Intake.SummaryFiles | api/incident-intake.js:112 | the files of the 200 answer are one `{name, type, size}` object per accepted record, in order, with the record's name, type and size |
| Intake.ResponseJson | api/incident-intake.js:88-105 | an error answer is `{ error: message }` with its status |
| Prompts.FilesList | lib/prompts.js:3-5 | `(files || []).map(...)`: no entries for falsy files, a throw for a non-array, a throw at the first null or undefined entry, else one `{name, type, size, url}` entry per file (FilesListShape, NullEntryIsFirst) |
| Prompts.SystemText | lib/prompts.js:7-47 | the system message: the introduction, the schema of the three reports and the closing rules (SystemNamesReports, DiscriminantWritten) |
| Prompts.UserPayload | lib/prompts.js:49-55 | the user payload object with the input's fields and the guidance note (PayloadFields) |
| Prompts.BuildIncidentPrompt | lib/prompts.js:2-57 | `buildIncidentPrompt`: the system text and the user payload, or the throw of a null argument or of the files projection (PromptShape, PromptFailure) |
| Prompts.FirstNullishIndex | lib/prompts.js:3-5 | finds the first null or undefined file entry, or none exactly when there is none |
| Prompts.FilesListShape | lib/prompts.js:3-5 | falsy files give no attachments; a non-array throws; an array gives one entry per file in order unless an entry is null |
| Prompts.NullEntryIsFirst | lib/prompts.js:3-5 | a failing projection names the first null entry |
| Prompts.FileEntryKeys | lib/prompts.js:3-5 | each entry has exactly name, type, size and url, copied from the file, and no other property |
| Prompts.PromptShape | lib/prompts.js:2-57 | when it does not throw, the answer is the constant system text and the payload of the input's fields |
| Prompts.PromptFailure | lib/prompts.js:2-3 | it throws exactly for a null argument or unusable files |
| Prompts.PayloadFields | lib/prompts.js:49-55 | the payload carries contactEmail, awarenessTimeUTC, incidentText, attachments and the guidance note, in that order |
| Prompts.SchemaReports | lib/prompts.js:12-45 | the target schema has exactly the three reports with their discriminants |
| Prompts.SystemNamesReports | lib/prompts.js:7-47 | the system text spells out the discriminant of each report |
| Prompts.DiscriminantWritten | lib/prompts.js:12-45 | the system text of any schema contains the discriminant line of each of its reports |
| ReportLayout.Label | lib/pdf.js:117-121 | the display label of each of the three report types, or the type itself (LabelMapping) |
| ReportLayout.JoinList | lib/pdf.js:116 | `arr`: an array joined with ", ", anything else as it is (JoinListShape) |
| ReportLayout.Section | lib/pdf.js:98 | `section`: a heading and the paragraph of the text (SectionShape) |
| ReportLayout.RenderTimeline | lib/pdf.js:110-115 | `renderTimeline`: the dash, a string as is, one line per array entry, or one line per object entry (TimelineShape) |
| ReportLayout.Table | lib/pdf.js:99-109 | `table`: nothing for skipped data, else the heading and the items of each row (TableShape) |
| ReportLayout.Metadata | lib/pdf.js:57-66 | the metadata block: heading, eight key/value lines, and the previous reference when present (MetadataShape) |
| ReportLayout.EarlyWarningBody | lib/pdf.js:69-74 | the early warning's four sections (EarlyWarningHeadings) |
| ReportLayout.IncidentNotificationBody | lib/pdf.js:76-82 | the notification's sections, IoC table and timeline (IncidentNotificationHeadings, IncidentNotificationFailure) |
| ReportLayout.FinalReportBody | lib/pdf.js:84-91 | the final report's sections, IoC table and timeline (FinalReportHeadings, FinalReportFailure) |
| ReportLayout.Body | lib/pdf.js:69-91 | the body of the report type; an unknown type has none (BodyFailure, BodyHeadingsOf) |
| ReportLayout.Layout | lib/pdf.js:12-123 | the document: header, metadata, body and attachments note, or the body's error (LayoutFrame, LayoutFailsWithBody, LayoutHeadings) |
| ReportLayout.UpperCase | lib/pdf.js:46 | the upper-cased heading has no lower-case ASCII letter and is no shorter |
| ReportLayout.LabelMapping | lib/pdf.js:117-121 | the three types get their labels and anything else is shown as is |
| ReportLayout.JoinListShape | lib/pdf.js:116 | an array is joined with ", " and anything else is left alone |
| ReportLayout.Placeholders | lib/pdf.js:47-48 | `P` prints the dash for falsy text, `KV` only for null and undefined |
| ReportLayout.SectionShape | lib/pdf.js:98 | a section is a heading and one non-empty paragraph |
| ReportLayout.TimelineLines | lib/pdf.js:113 | the lines of an array timeline, one per entry, fail exactly on a null entry |
| ReportLayout.EntryLines | lib/pdf.js:114 | one "• k: v" line per object entry |
| ReportLayout.TimelineShape | lib/pdf.js:110-115 | `renderTimeline` gives the dash, the string, the joined entry lines or the joined object lines, and fails exactly on an array with a null entry |
| ReportLayout.TimelineLineShape | lib/pdf.js:113 | "• e" for a string, "• time event" with missing parts empty, failing exactly on null |
| ReportLayout.EntryItems | lib/pdf.js:106 | one "• k" line per entry of an object row, with "–" for null values |
| ReportLayout.RowsFail | lib/pdf.js:104-106 | rows fail exactly when one is null or undefined |
| ReportLayout.StringRows | lib/pdf.js:105 | string rows show as one bullet paragraph each, in order |
| ReportLayout.TableShape | lib/pdf.js:99-109 | `table` writes nothing exactly for falsy data or an empty array; a string is one paragraph; it throws exactly on a null row; it has only its own heading |
| ReportLayout.TableHeadings | lib/pdf.js:99-101 | the table's headings are its title when shown, none when skipped |
| ReportLayout.LayoutFailure | lib/pdf.js:76-91 | rendering throws only for the notification and the final report, exactly when the IoC table or the timeline has a null entry |
| ReportLayout.LayoutFailsWithBody | lib/pdf.js:50-94 | a document fails exactly when its body does; header, metadata and footer never fail |
| ReportLayout.BodyFailure | lib/pdf.js:69-91 | the body fails under the same condition |
| ReportLayout.IncidentNotificationFailure | lib/pdf.js:76-82 | the notification fails exactly when its IoC table or its timeline fails |
| ReportLayout.FinalReportFailure | lib/pdf.js:84-91 | the final report fails exactly when its IoC table or its timeline fails |
| ReportLayout.MetadataShape | lib/pdf.js:57-66 | the metadata is a heading and eight key/value lines, the eighth showing the report type's label, plus a ninth line exactly when the previous reference is truthy |
| ReportLayout.LayoutFrame | lib/pdf.js:51-94 | every document has the title, type line and rule, the metadata heading, and closes with the attachments note |
| ReportLayout.MetadataHeadings | lib/pdf.js:57-66 | the metadata has exactly one heading |
| ReportLayout.EarlyWarningHeadings | lib/pdf.js:69-74 | the early warning shows its four sections in order |
| ReportLayout.IncidentNotificationHeadings | lib/pdf.js:76-82 | the notification's section headings in order, with the IoC heading only when the table shows |
| ReportLayout.FinalReportHeadings | lib/pdf.js:84-91 | the final report's section headings in order, with the IoC heading only when the table shows |
| ReportLayout.BodyHeadingsOf | lib/pdf.js:69-91 | the body headings of each report type |
| ReportLayout.LayoutHeadings | lib/pdf.js:12-123 | the headings of a document: metadata, the sections of the type, attachments |
| PdfRender.PdfDoc.Heading1 | lib/pdf.js:45 | `H1` appends a title item and nothing else |
| PdfRender.PdfDoc.TypeLine | lib/pdf.js:52 | the centred type label appends a caption item |
| PdfRender.PdfDoc.HorizontalRule | lib/pdf.js:34-44 | `hr` appends a rule item |
| PdfRender.PdfDoc.Heading | lib/pdf.js:46 | `H2` appends a heading item |
| PdfRender.PdfDoc.Paragraph | lib/pdf.js:47 | `P` appends a paragraph item |
| PdfRender.PdfDoc.KeyValue | lib/pdf.js:48 | `KV` appends a key/value item |
| PdfRender.PdfDoc.WriteSection | lib/pdf.js:98 | `section` appends the items of `Section` |
| PdfRender.PdfDoc.WriteEntries | lib/pdf.js:106 | the entry loop appends `EntryItems` of the row |
| PdfRender.PdfDoc.WriteRow | lib/pdf.js:104-107 | a row appends `RowItems`, or fails on a null row with nothing written |
| PdfRender.PdfDoc.WriteTable | lib/pdf.js:99-109 | `table` appends `Table`'s items, or fails exactly when `Table` does, with the error of `Table` |
| PdfRender.PdfDoc.WriteHeader | lib/pdf.js:51-54 | the header appends `Header` |
| PdfRender.PdfDoc.WriteMetadata | lib/pdf.js:57-66 | the metadata lines append `Metadata` |
| PdfRender.PdfDoc.WriteEarlyWarning | lib/pdf.js:69-74 | appends the early-warning body |
| PdfRender.PdfDoc.WriteIncidentNotification | lib/pdf.js:76-82 | appends the notification body, or fails exactly when it does |
| PdfRender.PdfDoc.WriteFinalReport | lib/pdf.js:84-91 | appends the final-report body, or fails exactly when it does |
| PdfRender.PdfDoc.WriteBody | lib/pdf.js:69-91 | appends `Body` of the report type, or fails exactly when it does |
| PdfRender.RenderIncidentPdf | lib/pdf.js:12-123 | the rendered document is `Layout(draft, type)`, including its failure |
| PdfUpload.WithMeta | lib/pdf.js:139 | `draft.meta = draft.meta || {}` on the draft value, failing on a truthy primitive (WithMetaShape, WithMetaKeeps) |
| PdfUpload.Step | lib/pdf.js:136-147 | one pass of the loop on the progress so far: skip, record the render error, or store and answer (StepCases) |
| PdfUpload.Run | lib/pdf.js:135-148 | the loop: `Step` over the jobs in order from an empty progress (RunFails, RunDone, RunKeeps) |
| PdfUpload.BlobStore.Put | lib/pdf.js:143-146 | `put` stores the document under the path and answers with the store's info |
| PdfUpload.GenerateAndUploadPdfs | lib/pdf.js:126-150 | the answer, the drafts afterwards and the store are those of `Run` over the three jobs, with documents laid out by `Layout` |
| PdfUpload.RunJobs | lib/pdf.js:135-149 | the loop's answer, drafts and store are those of `Run` over the jobs |
| PdfUpload.RunJob | lib/pdf.js:136-147 | one pass is `Step`, and the store gains its upload |
| PdfUpload.RunStops | lib/pdf.js:135-149 | once a job has thrown, the later jobs change nothing |
| PdfUpload.Present | lib/pdf.js:135-137 | there are at most as many present jobs as jobs |
| PdfUpload.PresentFrom | lib/pdf.js:136-137 | the present jobs are jobs of the list whose draft is truthy |
| PdfUpload.PresentHas | lib/pdf.js:136-137 | every job with a truthy draft is among the present jobs |
| PdfUpload.PresentDistinct | lib/pdf.js:129-133 | the present jobs keep distinct keys |
| PdfUpload.StepCases | lib/pdf.js:136-147 | one pass skips a falsy draft, records the error and keeps the answer for one that does not render, or stores it and adds its answer entry |
| PdfUpload.RunKeeps | lib/pdf.js:136-139 | a draft key no job names, or whose draft is falsy, is left as it was |
| PdfUpload.RunFails | lib/pdf.js:135-149 | the loop rejects exactly when some present draft does not render, and then with the error of the first such draft |
| PdfUpload.RunDone | lib/pdf.js:135-149 | a loop that resolves has stored one document per present draft in job order, under the job's path, the rendering of the draft with metadata filled in; one answer entry per document; each present draft is replaced by its filled-in form |
| PdfUpload.UploadedStep | lib/pdf.js:136-147 | a present draft that renders extends the uploads, answer and drafts by its own |
| PdfUpload.PathsDiffer | lib/pdf.js:142 | jobs with different files are stored under different paths |
| PdfUpload.RunStoresPresent | lib/pdf.js:136-147 | for a job with a truthy draft, its path holds that draft's rendering and the answer's key maps to what `put` reported |
| PdfUpload.UploadedAt | lib/pdf.js:142-147 | for a present job, its path holds its rendering, the only upload under that path, and the answer's key maps to what `put` reported |
| PdfUpload.RunStoresAbsent | lib/pdf.js:137 | for a job with a falsy draft, its path keeps what it held, the answer has no entry and the draft is unchanged |
| PdfUpload.StoredLast | lib/pdf.js:143 | a path holds the document of the last upload that used it |
| PdfUpload.StoredKeeps | lib/pdf.js:143 | a path no upload used keeps what it held |
| PdfUpload.WithMetaShape | lib/pdf.js:139 | `meta = meta or {}` fails only on a truthy primitive, sets meta of an object to `meta or {}`, and leaves an object with truthy meta unchanged |
| PdfUpload.WithMetaKeeps | lib/pdf.js:139 | every key other than meta reads as before |
| PdfUpload.WithMetaMetadata | lib/pdf.js:139 | filling in meta changes neither the metadata block nor the title |
| PdfUpload.WithMetaEarlyWarning | lib/pdf.js:139 | filling in meta does not change the early-warning body |
| PdfUpload.WithMetaIncidentNotification | lib/pdf.js:139 | filling in meta does not change the notification body |
| PdfUpload.WithMetaFinalReport | lib/pdf.js:139 | filling in meta does not change the final-report body |
| PdfUpload.IncidentNotificationReads | lib/pdf.js:76-82 | two drafts that agree on the keys the notification reads give the same notification body |
| PdfUpload.FinalReportReads | lib/pdf.js:84-91 | two drafts that agree on the keys the final report reads give the same final-report body |
| PdfUpload.WithMetaBody | lib/pdf.js:139 | filling in meta does not change the body of any report type |
| PdfUpload.WithMetaLayout | lib/pdf.js:139-141 | filling in meta does not change the rendered document |
| PdfUpload.JobsDistinct | lib/pdf.js:129-133 | the three jobs differ in key and in file |
| PdfUpload.JobsMatchSchema | lib/pdf.js:129-133 | the jobs name the reports of the prompt's target schema in its order, and the intake's placeholder drafts carry each job's report type |
| PdfUpload.UploadFails | lib/pdf.js:126-150 | the upload resolves exactly when every present draft gets its metadata and lays out, and otherwise rejects with the error of the first that does not |
| PdfUpload.UploadStoresLayouts | lib/pdf.js:126-150 | after it resolves, each present report's file holds `Layout` of its draft and the answer maps its key to the stored info; an absent report leaves its path alone and has no entry |

## Left out

- `lib/llm.js`, `api/health.js` and `api/ai-selftest.js` are not part of this model; the
  language-model call, the liveness probe and the self-test are outside the core.
- CORS headers, the OPTIONS and non-POST answers (`api/incident-intake.js:4-8,83-85`) and
  the body-size config are transport wiring and are not modelled; `Handle` is the POST path.
- The current time behind `Date.now()` and `new Date()` is the parameter `now`; the id
  `"demo-" + Date.now()` (`api/incident-intake.js:106`) is the parameter `intakeId`; the
  host's parser behind `new Date(text)` is the parameter `iso`.
- Json.ToJsString / Json.ToNumber: an object with an own property named `toString` or
  `valueOf` that is not a function (JSON gives `{"toString": 1}`) makes JavaScript's
  `String`, `Number`, template literals and `join` throw a TypeError; here such an object
  prints as "[object Object]" and reads as NaN. So for such a value `Intake.Handle` answers
  200 where the source throws: in `awarenessTime` (`api/incident-intake.js:35`, an uncaught
  throw) and in an attachment's name, type, size or data (`:69-72`, where the catch at
  `:102-103` answers 400), and in an offset hint (`:26`). `Attachments.Collect` keeps such an
  entry, and `ReportLayout.Layout` renders such a value in `P`, `KV`, a table row or a
  timeline entry (`lib/pdf.js:47-48,106,113-114`) instead of failing.
- Every number in a request body is an integer here (`Json.Value.Num` holds an `int`): a
  fractional `awarenessTime` such as 1.5, or a fractional size, cannot be expressed.
  `Number(...)` reads integers, blank strings and the infinities; decimal fractions,
  exponents and hexadecimal forms are read as NaN.
- Json.ToJsString and JsCore.IntToString print every digit of a number, while
  JavaScript's `String` writes numbers of 1e21 and more in exponent form ("1e+21"); for
  such a numeric `awarenessTime` the `received` text of `api/incident-intake.js:35` differs.
- The `Date` range limit (±8.64e15 ms) and the seven-digit years of toISOString are not checked.
- Strings are sequences of code points, not UTF-16 units; `toUpperCase` covers the
  ASCII letters, the umlauts and ß, which is all the headings use.
- `JSON.stringify` of the prompt's user message is not modelled as text; the payload
  value is.
- pdfkit's fonts, sizes, spacing, page breaks and output bytes are left out; a document
  is the sequence of items written, and pdfkit's text conversion of a value is taken to
  be `String(v)`.
- `put` is modelled as a store that always succeeds; its URL, stored path and size come
  from a function given to the store, and network failure is not modelled.
- PdfUpload.GenerateAndUploadPdfs: the loop lays documents out with `Layout`, which
  `PdfRender.RenderIncidentPdf` is proved to build, rather than calling the method.
- PdfUpload.WithMeta: `draft.meta = ...` on an array draft is modelled as leaving the
  array unchanged, because array values carry no named properties here. Drafts are
  values, so aliasing between a caller's draft object and the one updated is not modelled.
