# pestes-config, modelled in Dafny

`pestes-config` is a browser tool for editing a pest-control company's service
catalogue. A configuration holds:

- primary categories (`yksityinen`, `taloyhtio`, `yritys` by default);
- the secondary categories filed under each primary;
- the services, each with a `mapping` that records, per primary, whether it is
  enabled and which secondary categories ("tags") it has.

The tool does four things with that configuration, all in `pestes-config/app.js`:

- It keeps the configuration in storage.
- It repairs whatever it reads back with `normalizeState`.
- It edits the configuration through a handful of actions.
- It moves the configuration to and from Google Sheets as CSV.

This project models the logic of that file and proves what it promises.

| module (file) | models |
|---|---|
| `Text` (`text.dfy`) | ECMAScript `trim` (the full WhiteSpace and LineTerminator set), `split`/`join` on one character, and the decimal text of integers used by `toInt` |
| `Slug` (`slug.dfy`) | `slugifyId`: trim, lower-case, each whitespace run becomes `_`, drop all but `[a-z0-9_]` |
| `Csv` (`csv.dfy`) | `escapeCsv`; the row and sheet joins (`,` and `\n`); `parseCSV` as an imperative loop proved equal to a functional scanner, and that scanner's lemmas |
| `Records` (`records.dfy`) | `parseCSVToObjects` as an imperative method (with its `forEach` fill as a loop) proved against a functional specification |
| `JsValues` (`jsvalues.dfy`) | JSON values as `JSON.parse` yields them, truthiness, property access, `String(...)`, `Object.entries`, `delete obj[key]` and `obj[key] = v` |
| `Config` (`config.dfy`) | categories, services, the configuration, `getDefaultState`, and the JSON form of a configuration |
| `Normalize` (`normalize.dfy`) | `normalizeState`, including the `TypeError` it throws on a `null` list element |
| `Editing` (`editor.dfy`) | the state actions as methods of a class `Editor` whose fields are the primaries, the buckets, the services and the draft's `editingServiceId`: `addPrimary`, `deletePrimary`, `addSecondary`, `deleteSecondary`, `saveService`, `deleteService` |
| `SheetRows` (`sheetrows.dfy`) | the services sheet: `computePrimaryCategories`, the tag cells and rows of `buildServicesCsv`, the services part of `importFromGoogleSheetsCSV`, and the round trip between them |
| `Html` (`html.dfy`) | `escapeHtml` |

The main results are these:

- **CSV round trip.** Parsing the joined, escaped rows gives the rows back
  (`Csv.ParseCsvText`). `Csv.ParseCsv` and `Records.ParseCsvToObjects` are
  loops proved to compute the specifications these lemmas talk about.
- **Idempotent normalisation.** `normalizeState` is idempotent on its own output,
  and every category and service it produces is well shaped.
- **Editor actions.** Each action states its whole new state. Each one keeps the
  ids of primaries, of the secondaries of each primary, and of services unique.
- **Services sheet round trip.** Exporting services as a sheet and importing the
  sheet gives back the services, with their mappings as the sheet can hold them
  (`SheetRows.ServicesCsvRoundTrip`). A second round trip changes nothing more
  (`SheetRows.SecondTripUnchanged`).

`normalizeState` is meant to accept any value, but the code can throw, and the
model follows the code:

- A `null` element in the primaries, in a bucket list or in the services list is
  read with `p.id`, `c.id` or `svc.service_id`, which throws a `TypeError`.
- `Normalize.Normalize` therefore returns either a normalised configuration or
  `ThrowsTypeError`. `Normalize.NoThrowWhenNullFree` states when it cannot throw.

## Model

| member | source | states |
|---|---|---|
| Text.TrimIsTrimmed | pestes-config/app.js:101 | `trim` leaves no leading or trailing whitespace |
| Text.TrimIsSlice | pestes-config/app.js:101 | `trim` removes whitespace at both ends only: the result is a slice with whitespace before and after it |
| Text.TrimIdempotent | pestes-config/app.js:101 | trimming twice is trimming once |
| Text.TrimmedTrim | pestes-config/app.js:101 | text without surrounding whitespace is its own trim |
| Text.TrimEmptyIffAllSpace | pestes-config/app.js:96 | a cell trims to `""` exactly when it is all whitespace |
| Text.Split | pestes-config/app.js:359-360 | `split(",")` gives at least one piece and no piece holds the separator |
| Text.JoinSplit | pestes-config/app.js:359-360 | joining the pieces of `split` with the same separator gives the text back |
| Text.SplitJoin | pestes-config/app.js:508 | splitting the `join` of separator-free pieces gives the pieces back |
| Text.ToIntText | pestes-config/app.js:20-23 | `toInt` of blank text is 0 (`Number("")`), and of text that is not an integer the fallback |
| Text.ToIntOfIntToString | pestes-config/app.js:20-23 | `toInt` of the decimal text of an integer is that integer |
| JsValues.NullishStringOfString | pestes-config/app.js:175 | `String(v ?? "")` and `String(v \|\| "")` of a string are the string |
| JsValues.ToIntOfNumber | pestes-config/app.js:20-23 | `toInt` of a number is the number |
| JsValues.LookupUnique | pestes-config/app.js:175 | in an object whose member names are distinct, each member is read back by its name |
| JsValues.LookupAbsent | pestes-config/app.js:190-198 | a name that no member has reads as missing, so `?? ""` gives `""` |
| JsValues.LookupRemoveKey | pestes-config/app.js:637 | `delete obj[key]` removes exactly `key`; every other member reads as before |
| JsValues.LookupReplace | pestes-config/app.js:688 | replacing a member's value changes what that name reads and nothing else |
| JsValues.LookupSetField | pestes-config/app.js:376 | `obj[key] = v` makes `key` read `v` and leaves every other name as it was |
| Slug.KeepSlugChars | pestes-config/app.js:17 | removing every character outside `[a-z0-9_]` leaves only slug characters |
| Slug.Slugify | pestes-config/app.js:12-18 | `slugifyId`'s output holds only `[a-z0-9_]`, so no whitespace |
| Slug.SlugifyOfSlug | pestes-config/app.js:12-18 | a slug is its own `slugifyId` |
| Slug.SlugifyIdempotent | pestes-config/app.js:12-18 | `slugifyId` is idempotent |
| Slug.CollapseWord | pestes-config/app.js:16 | a run of whitespace between words becomes a single `_` |
| Slug.SlugifyTwoWords | pestes-config/app.js:12-18 | two words separated by a whitespace run slug to the two slugged words joined by one `_` |
| Slug.SlugifyExample | pestes-config/app.js:12-18 | `slugifyId("Has Space!")` is `"has_space"` |
| Csv.EscapeCsv | pestes-config/app.js:25-31 | a field is returned unchanged exactly when it holds none of `"` `,` LF CR; otherwise the result is wrapped in quotes |
| Csv.QuotedRun | pestes-config/app.js:44-53 | inside quotes, `""` reads as one `"`, any other character (comma and LF included) is content, and a lone `"` closes the quotes |
| Csv.PlainRun | pestes-config/app.js:77 | outside quotes, characters other than `"` `,` LF CR are appended to the field |
| Csv.OpenQuoteStep | pestes-config/app.js:56-59 | outside quotes, `"` opens quoted mode wherever it stands |
| Csv.CommaStep | pestes-config/app.js:61-65 | outside quotes, a comma ends the field |
| Csv.NewlineStep | pestes-config/app.js:69-75 | outside quotes, LF ends the field and the row |
| Csv.FieldRun | pestes-config/app.js:25-31 | the scanner reads an escaped field back as the field |
| Csv.RowRun | pestes-config/app.js:846 | the scanner reads a row joined with `,` back as its fields |
| Csv.RowThenNewline | pestes-config/app.js:69-75 | a joined row followed by LF is read back as one finished row |
| Csv.RowsRun | pestes-config/app.js:846 | the scanner reads the `\n`-joined rows back, with the last one still open |
| Csv.FlushOpenLast | pestes-config/app.js:80-81 | after the loop the final field and row are always flushed |
| Csv.DropTrailingBlank | pestes-config/app.js:83-85 | only trailing rows are dropped, each of them blank, and the last row kept is not blank |
| Csv.ParseEmpty | pestes-config/app.js:80-85 | empty input parses to no rows |
| Csv.ParseCsv | pestes-config/app.js:34-88 | the character loop, with its `i++` skip over `""` and its `pop` loop, computes the scanner's result |
| Csv.ParseCsvText | pestes-config/app.js:34-88 | parsing `rows.map(r => r.map(escapeCsv).join(",")).join("\n")` gives `rows` back when every row has a field and the last row is not blank |
| Csv.CrStep | pestes-config/app.js:67 | outside quotes a CR is skipped and leaves the scan as it was |
| Csv.RunDropsCr | pestes-config/app.js:67 | when every CR of the text is read outside quotes, no field the scanner produces holds one |
| Csv.ParseDropsCr | pestes-config/app.js:34-88 | `parseCSV` returns a field holding a CR only when that CR was quoted; text without quotes gives no CR at all |
| Records.NonBlankRows | pestes-config/app.js:96 | the data rows kept are exactly those with a non-blank cell |
| Records.FillStep | pestes-config/app.js:99-102 | each header visited sets its key to the trimmed cell, except an empty header, which is skipped |
| Records.FillRecord | pestes-config/app.js:98-103 | the `forEach` loop builds the record the specification describes |
| Records.ParseCsvToObjects | pestes-config/app.js:90-105 | the method returns the records of the parsed rows |
| Records.NoRowsNoRecords | pestes-config/app.js:92 | no rows give no records |
| Records.DataRecordsSnoc | pestes-config/app.js:94-104 | a further data row adds its record, unless it is blank |
| Records.RecordsOfRows | pestes-config/app.js:94-104 | the records are exactly those of the non-blank rows after the first, read under the trimmed headers |
| Records.FillKeys | pestes-config/app.js:99-102 | a record's keys are exactly the non-empty headers |
| Records.FillValue | pestes-config/app.js:99-102 | a key holds the trimmed cell under its last header, and `""` when the row is too short |
| Records.FillSameCells | pestes-config/app.js:101 | a record depends only on the trimmed cells under the headers |
| Records.FillIgnoresExtraCells | pestes-config/app.js:101 | cells beyond the last header are ignored |
| Config.DefaultPrimaries | pestes-config/app.js:121-125 | the default state has three primaries |
| Config.DefaultBuckets | pestes-config/app.js:126-141 | the default state has three buckets |
| Config.DefaultConfig | pestes-config/app.js:119-148 | the default state has 3 primaries, 3 buckets and no services |
| Config.GetEncodedCategory | pestes-config/app.js:175 | the stored form of a category reads back as its id, label and order |
| Config.GetEncodedService | pestes-config/app.js:188-198 | the stored form of a service reads back as each of its fields |
| Config.GetEncodedConfig | pestes-config/app.js:165-171 | the stored configuration reads back as its four parts |
| Normalize.NormCategory | pestes-config/app.js:175 | a normalised category has a slug id and a trimmed label |
| Normalize.NormCategories | pestes-config/app.js:174-176 | every category kept has a non-empty slug id and a non-empty trimmed label, and there are no more of them than items |
| Normalize.NormCategoriesKeeps | pestes-config/app.js:174-176 | every item whose normalised form has an id and a label is kept |
| Normalize.NormCategoriesAppend | pestes-config/app.js:174-176 | the list is normalised item by item, so the kept categories stay in the order of their items |
| Normalize.Assign | pestes-config/app.js:182 | `sbp[pid] = list` adds `pid` to the keys, keeps keys distinct and keeps buckets well shaped |
| Normalize.BucketsFrom | pestes-config/app.js:178-185 | the bucket fold keeps the buckets well shaped |
| Normalize.NormService | pestes-config/app.js:189-199 | every text field of a normalised service is trimmed, and its mapping is an object, `{}` when the input's is not |
| Normalize.NormServices | pestes-config/app.js:188-200 | every service kept has a non-empty trimmed id and name, and there are no more of them than items |
| Normalize.NormServicesKeeps | pestes-config/app.js:188-200 | every item whose normalised form has an id and a name is kept |
| Normalize.NormServicesAppend | pestes-config/app.js:188-200 | the services are normalised item by item, so the kept ones stay in the order of their items |
| Normalize.DraftOf | pestes-config/app.js:171 | the draft is always an object |
| Normalize.Normalize | pestes-config/app.js:161-203 | a configuration that `normalizeState` returns is well shaped |
| Normalize.NormalizeParts | pestes-config/app.js:174-200 | the object branch throws exactly when a list it maps holds `null`, and otherwise yields a well-shaped configuration with the draft it read |
| Normalize.DefaultWellShaped | pestes-config/app.js:119-148 | the default state is well shaped |
| Normalize.DefaultPrimariesGood | pestes-config/app.js:121-125 | the default primaries have slug ids and trimmed, non-empty labels |
| Normalize.DefaultBucketsGood | pestes-config/app.js:126-141 | the default buckets have distinct slug keys and good categories |
| Normalize.NormEncodedCategory | pestes-config/app.js:175 | normalising the stored form of a good category gives the category back |
| Normalize.NormEncodedCategories | pestes-config/app.js:174-176 | normalising a stored list of good categories gives the list back |
| Normalize.AssignNew | pestes-config/app.js:182 | assigning a new key appends the bucket last |
| Normalize.BucketsFromEncoded | pestes-config/app.js:178-185 | re-reading well-shaped buckets files each list under its own key, in order |
| Normalize.NormEncodedService | pestes-config/app.js:188-198 | normalising the stored form of a good service gives the service back |
| Normalize.NormEncodedServices | pestes-config/app.js:188-200 | normalising a stored list of good services gives the list back |
| Normalize.NoNullCategories | pestes-config/app.js:174-175 | a stored category list holds no `null` |
| Normalize.NoNullBuckets | pestes-config/app.js:182-183 | a stored bucket list holds no `null` |
| Normalize.SourcesOfEncoded | pestes-config/app.js:165-171 | the normaliser reads each part of a stored configuration as stored |
| Normalize.NormalizeFromSources | pestes-config/app.js:161-203 | an object whose parts are the stored parts of a well-shaped configuration normalises to that configuration |
| Normalize.NormalizeOfWellShaped | pestes-config/app.js:161-203 | a well-shaped configuration, stored, normalises to itself |
| Normalize.NormalizeIdempotent | pestes-config/app.js:161-203 | `normalizeState` is idempotent on its own output |
| Normalize.SourcesOfEmpty | pestes-config/app.js:165-171 | from `{}` the normaliser reads the default primaries, buckets and draft, and no services |
| Normalize.DefaultsWhenNotObject | pestes-config/app.js:162-163 | a non-object input, or `{}`, gives the default state |
| Normalize.FindAssign | pestes-config/app.js:182 | after `sbp[k] = v`, `k` holds `v` and every other key is unchanged |
| Normalize.BucketsFromUnfiled | pestes-config/app.js:179-185 | a key that no list is filed under is left as it was |
| Normalize.BucketsFromLast | pestes-config/app.js:179-185 | a key holds the normalised form of the last list filed under it; a later duplicate slug overwrites an earlier one |
| Normalize.BucketIsLastList | pestes-config/app.js:179-185 | in the normalised state, each bucket is the last list whose key slugs to it |
| Normalize.NoBucketWithoutList | pestes-config/app.js:181 | a key whose values are never lists gets no bucket |
| Normalize.LookupNullFree | pestes-config/app.js:165-171 | a member of a `null`-free object is `null`-free |
| Normalize.GetNullFree | pestes-config/app.js:165-171 | reading a property of a `null`-free value gives a `null`-free value |
| Normalize.EntriesNullFree | pestes-config/app.js:179-183 | the bucket lists of a `null`-free object hold no `null` |
| Normalize.NoThrowWhenNullFree | pestes-config/app.js:161-203 | `normalizeState` does not throw on a value without `null` inside a list |
| Normalize.NormalizeLists | pestes-config/app.js:174-200 | when no list holds `null`, the primaries and services are those the two filters keep |
| Normalize.DefaultLists | pestes-config/app.js:165-169 | missing `primaries` or `secondariesByPrimary` fall back to the defaults, which hold no `null` |
| Normalize.ServicesDefaultEmpty | pestes-config/app.js:170 | a `services` value that is not a list gives no services |
| Normalize.NormalizeExamplePrimary | pestes-config/app.js:161-176 | `{primaries:[{id:"Has Space!",label:"X",order:"3"}]}` gives the one primary `has_space`, labelled `X`, with order 3 |
| Normalize.NormalizeExampleService | pestes-config/app.js:188-200 | `{services:[{service_id:" 5 ",service_name:"Svc"}]}` gives one service with id `5`, name `Svc`, empty texts and mapping `{}` |
| Editing.WithoutCategory | pestes-config/app.js:636 | filtering by id keeps exactly the categories with another id |
| Editing.WithoutService | pestes-config/app.js:778 | filtering by id keeps exactly the services with another id |
| Editing.WithoutTag | pestes-config/app.js:688 | filtering the tags keeps exactly those that are not the string `id` |
| Editing.DropPrimaryGet | pestes-config/app.js:639-643 | after `deletePrimary(id)` a mapping has no entry for `id`, and every other entry is as before |
| Editing.DropTagElsewhere | pestes-config/app.js:684-690 | after `deleteSecondary(primaryId, id)` every mapping entry other than `primaryId` is as before |
| Editing.DropTagAt | pestes-config/app.js:684-690 | the entry for `primaryId`, when an object with a tag list, keeps its other members and loses only `id` from its tags; otherwise the mapping is unchanged |
| Editing.WithoutCategoryUnique | pestes-config/app.js:636 | filtering keeps category ids unique |
| Editing.AppendCategoryUnique | pestes-config/app.js:622-626 | appending a category whose id is new keeps ids unique |
| Editing.WithoutServiceUnique | pestes-config/app.js:778 | filtering keeps service ids unique |
| Editing.UpsertLeavesOne | pestes-config/app.js:736 | filtering out an id and appending the service leaves it last and no other service with its id |
| Editing.Upsert | pestes-config/app.js:729-736 | the saved service is last; the other services are exactly those there before whose id is neither the saved id nor the non-empty id being edited; unique ids stay unique |
| Editing.Editor.constructor | pestes-config/app.js:161-203 | the editor starts from a normalised configuration |
| Editing.Editor.AddPrimary | pestes-config/app.js:613-633 | an empty id or label, or a used id, is rejected without change; otherwise the primary is appended with `toInt(order, 1)`, its bucket is created when missing, and ids stay unique |
| Editing.Editor.DeletePrimary | pestes-config/app.js:635-648 | the primary, its bucket and that key in every service mapping are removed, and nothing else changes |
| Editing.Editor.AddSecondary | pestes-config/app.js:650-678 | no primary, an empty id or label, or a used id is rejected without change; otherwise the category is appended to the primary's bucket, creating the bucket if missing |
| Editing.Editor.DeleteSecondary | pestes-config/app.js:680-698 | the category is removed from that bucket and that tag from that primary's tags in every mapping; nothing else changes |
| Editing.Editor.SaveService | pestes-config/app.js:715-741 | missing id or name, or an id used by a service other than the edited one, is rejected without change; otherwise exactly one service has the id, appended last, and it becomes the edited one |
| Editing.Editor.DeleteService | pestes-config/app.js:777-783 | the services with that id are removed, and editing stops if it was the edited one |
| SheetRows.EnabledIds | pestes-config/app.js:504-508 | every id kept is enabled in the mapping |
| SheetRows.EnabledIdsMember | pestes-config/app.js:504-508 | an id is in `primary_categories` exactly when it is a primary's id enabled in the mapping |
| SheetRows.KeptTags | pestes-config/app.js:829 | `filter(Boolean)` keeps exactly the truthy tags |
| SheetRows.TagCell | pestes-config/app.js:826-831 | the cell is `-` for a disabled primary, and the code throws exactly when the tags are truthy but not a list |
| SheetRows.TagCells | pestes-config/app.js:826-831 | the tag cells of a service, one per primary, exist exactly when no cell throws |
| SheetRows.SlugsOf | pestes-config/app.js:361-362 | slugging and `filter(Boolean)` leave non-empty slugs |
| SheetRows.TagsFromCell | pestes-config/app.js:368-375 | a blank cell or `-` gives no tags |
| SheetRows.JoinSheetChars | pestes-config/app.js:508 | slugs joined by `,` hold only slug characters and commas |
| SheetRows.SheetCharsTrimmed | pestes-config/app.js:368 | such text is its own trim |
| SheetRows.SlugsOfSlugs | pestes-config/app.js:361-362 | non-empty slugs survive slugging and filtering unchanged |
| SheetRows.SlugListJoin | pestes-config/app.js:359-362 | reading a `primary_categories` cell gives back the joined slugs |
| SheetRows.EnabledIdsSlugs | pestes-config/app.js:504-508 | the ids written are non-empty slugs |
| SheetRows.PrimaryCellRoundTrip | pestes-config/app.js:366 | a primary is imported as enabled exactly when it was enabled when exported |
| SheetRows.TagCellShape | pestes-config/app.js:826-831 | a tag cell is `-` for no tags, or the tags joined by `,` |
| SheetRows.TagCellRoundTrip | pestes-config/app.js:368-375 | importing a tag cell gives the tags the sheet holds |
| SheetRows.MappingFieldsLookup | pestes-config/app.js:364-377 | after the import loop each primary id holds the entry built for it, and no other key is present |
| SheetRows.MappingFieldsSame | pestes-config/app.js:365-377 | the imported mapping depends only on the entries for the primary ids |
| SheetRows.MappingRoundTrip | pestes-config/app.js:364-377 | a mapping imported from its own cells holds, per primary, what the sheet keeps of it, and nothing else |
| SheetRows.EntryRoundTrip | pestes-config/app.js:366-376 | each primary's imported entry is what the sheet keeps of the exported one |
| SheetRows.ServiceRows | pestes-config/app.js:824-844 | the rows exist exactly when every service's row exists, one row per service, in order |
| SheetRows.ImportService | pestes-config/app.js:356-390 | a record is imported exactly when its trimmed id and name are non-empty, and what is imported is a well-shaped service |
| SheetRows.ImportServices | pestes-config/app.js:356-390 | at most one service per record, each well shaped |
| SheetRows.ImportServicesKeeps | pestes-config/app.js:356-390 | every record that imports gives a service the import keeps |
| SheetRows.ImportServicesAppend | pestes-config/app.js:356-390 | the records are imported one by one, so the services keep the order of their rows |
| SheetRows.FixedColumnsSlugs | pestes-config/app.js:809-819 | the fixed column names are non-empty slugs |
| SheetRows.FixedColumnsDistinct | pestes-config/app.js:809-819 | the fixed column names are distinct |
| SheetRows.TagColumnNotFixed | pestes-config/app.js:807 | no tag column has a fixed column's name |
| SheetRows.TagColumnInjective | pestes-config/app.js:807 | distinct primaries have distinct tag columns |
| SheetRows.HeaderSlugs | pestes-config/app.js:809-819 | every header is a non-empty slug, and so its own trim |
| SheetRows.HeaderDistinct | pestes-config/app.js:809-819 | the headers are distinct when the primary ids are |
| SheetRows.HeaderShape | pestes-config/app.js:809-819 | the header holds the five leading columns, then the tag columns, then the three trailing columns |
| SheetRows.RecordField | pestes-config/app.js:99-102 | under distinct headers, each cell is read back under its header, trimmed |
| SheetRows.SheetRecordField | pestes-config/app.js:99-102 | a cell of a services row is read back under its column's name |
| SheetRows.PrimaryCellTrimmed | pestes-config/app.js:825 | the `primary_categories` cell is its own trim |
| SheetRows.ServiceRowShape | pestes-config/app.js:833-843 | a service's row has its fields, the `primary_categories` cell and the tag cells, in header order |
| SheetRows.ServiceRecordTexts | pestes-config/app.js:379-388 | reading a service's row gives back its text fields |
| SheetRows.ServiceRecordCells | pestes-config/app.js:359-376 | reading a service's row gives back its mapping cells |
| SheetRows.ImportMappingOfCells | pestes-config/app.js:364-377 | the mapping imported from the cells is what the sheet keeps of the mapping |
| SheetRows.ImportServiceOf | pestes-config/app.js:379-388 | a record holding a good service's fields imports as that service with the imported mapping |
| SheetRows.ServiceRowRoundTrip | pestes-config/app.js:356-390 | importing one exported row gives back what the sheet keeps of the service |
| SheetRows.NonBlankRowsAll | pestes-config/app.js:96 | when no row is blank, all rows are kept |
| SheetRows.ImportServicesAll | pestes-config/app.js:356-390 | when every record imports, the imported list is those services, in order |
| SheetRows.ExportSucceeds | pestes-config/app.js:805-847 | exporting does not throw when every tag list is a list |
| SheetRows.ParseServicesCsv | pestes-config/app.js:846 | parsing the services sheet gives the records of all its rows |
| SheetRows.ServiceRowsNonBlank | pestes-config/app.js:833-843 | no service row is blank, since its id is not |
| SheetRows.SheetRowsParse | pestes-config/app.js:90-105 | a header row and non-blank rows, joined and parsed to objects, give the records of the rows under the trimmed header |
| SheetRows.ServicesCsvRoundTrip | pestes-config/app.js:805-847 | importing the exported services sheet gives back the services, with their mappings as the sheet holds them |
| SheetRows.SheetMappingGet | pestes-config/app.js:364-377 | the kept mapping has an entry for each primary id and nothing else |
| SheetRows.KeptAllTruthy | pestes-config/app.js:829 | a list of truthy tags is kept whole |
| SheetRows.TagTextsSlugs | pestes-config/app.js:829-830 | the tags written for a primary are non-empty slugs |
| SheetRows.EntryGet | pestes-config/app.js:376 | an imported entry reads back as its `enabled` and `tags` |
| SheetRows.SheetEntryOfEntry | pestes-config/app.js:376 | an entry already in sheet form is kept as it is |
| SheetRows.SheetMappingIdempotent | pestes-config/app.js:356-390 | keeping what the sheet holds is idempotent |
| SheetRows.SecondTripUnchanged | pestes-config/app.js:805-847 | a second export and import changes nothing more |
| Html.ReplaceAppend | pestes-config/app.js:887-892 | a global one-character replacement distributes over concatenation |
| Html.ReplaceAbsent | pestes-config/app.js:887-892 | a replacement of a character that is absent changes nothing |
| Html.EscapeTextChar | pestes-config/app.js:886-893 | the five chained replacements turn one character into its entity, or leave it |
| Html.EscapeTextAppend | pestes-config/app.js:886-893 | escaping distributes over concatenation |
| Html.EscapeTextIsEach | pestes-config/app.js:886-893 | the chained replacements, `&` first, escape every character independently, so none is escaped twice |
| Html.EscapeEachSafe | pestes-config/app.js:886-893 | escaped text holds no `<`, `>`, `"` or `'` |
| Html.UnescapeEntity | pestes-config/app.js:886-893 | an entity, or a kept character, reads back as its character |
| Html.UnescapeEscapeEach | pestes-config/app.js:886-893 | escaped text reads back as the original |
| Html.EscapeHtmlSafe | pestes-config/app.js:886-893 | `escapeHtml` leaves no markup character, and the text can be read back: nothing is lost |

## Left out

- Storage, rendering and I/O. The model leaves out:
  - DOM rendering and event wiring, and the `els` form fields, whose values are method parameters instead;
  - `localStorage`, with `saveState`, `loadState` and its `catch`, and the preferences;
  - `downloadText`, `fetch`, `FileReader`, `confirm` and `setStatus`.

  The status an action would show is its `Status` result.
- `JSON.parse` and `JSON.stringify` are left out. The normaliser takes an already
  parsed value, and `Config.EncodeConfig` stands for the stored form.
- JSON numbers are integers. Fractions, exponents, `NaN` and `Infinity` are left out.
- `toInt` is modelled on an optional sign and decimal digits. For blank text it
  gives 0, as `Number("")` does. Other text gives the fallback, including
  `"3.5"`, `"1e3"` and `"0x10"`, which JavaScript would accept.
- Text.ToIntText: reads digits exactly. `Number` goes through an IEEE double,
  so JavaScript rounds integers beyond 2^53: `toInt("9007199254740993")` is
  9007199254740992 there.
- `toLowerCase` is modelled on the ASCII capitals and the two other characters
  whose lower-case form holds an ASCII letter (U+0130 and U+212A). Every other
  character is left as it is, and `slugifyId` removes it anyway.
- `String(v)` of an object is `[object Object]` in the model. `JSON.parse` can
  give an object with its own `toString` member, which is never a function.
  JavaScript then skips it, `valueOf` returns the object itself, and `String`
  (or `Number` in `toInt`) throws a TypeError. The same holds for an array that
  holds such an object. The members below miss that throw.
- Normalize.NormalizeParts: states that the object branch throws exactly when a
  list it maps holds `null`. A category id, label or order, or a service field,
  that is an object with its own `toString` member throws too.
- Normalize.NoThrowWhenNullFree: `{"primaries":[{"id":{"toString":0},"label":"x"}]}`
  is null-free, and the model normalises it to a primary with the id
  `object_object`. In JavaScript `slugifyId` throws a TypeError on it.
- SheetRows.TagCell: states that the export throws exactly when the tags are
  truthy but not a list. A tag list holding an object with its own `toString`
  member makes `tags.join(",")` throw too, where the model writes
  `[object Object]`.
- Prototype members are not modelled: every object starts empty, and
  `__proto__` and `constructor` are ordinary names. In JavaScript, `obj[k] = v`
  with `k` = `__proto__` sets the prototype and adds no member, and reading
  `constructor` from a plain object finds a function. The following members
  therefore claim an entry or a result that JavaScript does not produce for
  those two names:
  - Editing.Editor.AddPrimary: `addPrimary("constructor")` creates no bucket,
    because the inherited function is truthy;
  - Editing.Editor.AddSecondary and Editing.Editor.DeleteSecondary: under that
    primary they throw a `TypeError` (`.some`/`.filter` on a function);
  - Normalize.BucketIsLastList: a list filed under `__proto__` gives no bucket;
  - Records.FillKeys: a `__proto__` header gives no key;
  - SheetRows.ServicesCsvRoundTrip: a primary with id `__proto__` gets no
    mapping entry.
- JavaScript objects list integer-like keys first. The model keeps members in
  insertion order, so the order of `Object.entries` differs when a bucket key
  looks like an integer. Duplicate member names cannot come from `JSON.parse`:
  lookup takes the last one.
- `sortByOrder` and `getPrimariesSorted` are left out, because their tie-break
  uses the locale-dependent `localeCompare`. The primaries of a sheet are taken
  as already sorted.
- `buildServicesCsv` sorts services by `toInt(service_id)`. The model takes them
  in the order given.
- `buildCategoriesCsv` and the categories half of `importFromGoogleSheetsCSV` are
  left out. That half is the primaries filter and sort, the secondaries buckets
  and `ensure` buckets for every primary.
- The final `normalizeState` call of the import is not part of
  `SheetRows.ImportServices`. `Normalize` covers it on its own.
- `getDraftService`, `editService`, `clearServiceForm` and `escapeAttr` are
  left out; they are form and UI code.
- Editing.Editor: keeps only `editingServiceId` of the draft. `draft.service`
  and any other draft member are not part of its state; the actions never read
  them. The normaliser keeps the whole draft value.
- Editing.Editor.SaveService: takes the draft service as a parameter and
  requires its mapping to be an object, as `getDraftService` always builds one.
- Editing.Editor: keeps the buckets as a map from primary id to list, because
  the actions look buckets up only by key. The normaliser keeps them in key order.
- Editing.Editor.DeletePrimary: spreading a mapping that is a non-empty string
  (`{..."ab"}`) would copy its characters. The editor's invariant `Valid` rules
  this out, since every mapping the normaliser leaves is an object.
- Csv.RunDropsCr: states that a CR read outside quotes never reaches a field.
  It does not state that the parse equals that of the text with those CRs
  deleted, which is false: deleting the CR of `"a"` CR `"b"` joins two quote
  marks into an escaped one. A CR read inside quotes is field content
  (`Csv.QuotedRun`).
- SheetRows.ServicesCsvRoundTrip: proved for primaries with distinct non-empty
  slug ids and for services whose tags are lists of slugs. Mappings come back as
  the sheet holds them: only `enabled` and the truthy tags, as strings.
