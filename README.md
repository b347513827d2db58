# Sales normalisation engine and item store — a verified Dafny model

This project models two Flask services.

The first, `app2.py`, takes order exports from four marketplaces: Shopee, Mercado Livre, TikTok and Shein. It stores the uploaded files and computes two kinds of summary:

- **The cross-file summary (`resumo_periodo`).** Every stored file is decoded, as a spreadsheet first and then as delimited text; a file that fails both is skipped. Each row is tagged with the platform its file name reveals. Then, for each supported platform in registry order:
  - its rows are filtered by an inclusive date range;
  - rows whose status mentions "cancel" are dropped;
  - quantities and values are coerced to numbers, with failures counting as 0;
  - the rows are summed per SKU into one record per (platform, SKU).
- **The single-file summary (`upload_excel`).** The request is checked and the bytes are stored; only then is the extension dispatched to a reader. A per-platform summary is built by comparing the file's columns with five expected columns. One line of text is rendered from that summary.

The second, `app_Version2.py`, is an in-memory item store. It is keyed by an integer id, allocates fresh ids, and has create, get, update and list handlers.

## Abstractions

- pandas is the `Readers` value (`tables.dfy`):
  - reading bytes as a spreadsheet or as delimited text;
  - `to_numeric` of one cell;
  - `to_datetime` of one cell, as an instant on an integer time line.
- A table is a sequence of column names and a sequence of rows. A row maps column names to cells. A cell is `Empty` (NaN/None) or `Value(text)`.
- Values and sums are `real`. Python's `int()` of a float is truncation toward zero (`Tables.Trunc`).
- Python's string order is `Text.StrLess`. `str.lower` is `Text.Lower`, written out for the code points whose lower case is an ASCII letter.
- The `:.2f` formatter is a parameter `money: real -> string`.
- The text of a caught exception is a parameter `detail`.
- The stored-file table (`ArquivoExcel`) is `Storage.FileStore`, a class whose file sequence grows by one per upload.
- The item store is `Items.ItemStore`, a class holding `map<int, Item>` plus the dictionary's insertion order.

## Model

| member | source | states |
|---|---|---|
| Platforms.Detect | app2.py:106-117 | the detected platform has a keyword in the lower-cased name (the catch-all needs none), and no platform of higher priority has one |
| Platforms.DetectIsFirstMatch | app2.py:106-117 | the detected platform is the first one, in priority order, with a keyword in the lower-cased name; it is `Outro` exactly when no keyword occurs (both directions) |
| Platforms.DetectFindsKeyword | app2.py:106-117 | a name containing a keyword in any mix of cases, and no keyword of a higher-priority platform, is classified as that platform; so "shopee" wins over "shein" |
| Platforms.DetectIgnoresCase | app2.py:96-118 | classifying the already lower-cased stored name gives the same platform as classifying the original name |
| Platforms.ColumnsMap | app2.py:121-126 | the supported platforms, and only they, have a schema; each schema names five distinct columns |
| Platforms.RegistryOrder | app2.py:121-131 | the platform loop visits exactly the four supported platforms, once each, in rank order; `Outro` is never visited |
| Platforms.ExpectedColumns | app2.py:250-279 | the supported platforms, and only they, expect exactly five columns |
| Platforms.ExpectedColumnsDistinct | app2.py:250-279 | no supported platform expects the same column twice, so the count of found columns is a count of distinct columns |
| Platforms.ExpectedColumnsAgreeWithSchema | app2.py:250-279 | the expected columns include the schema's SKU, quantity, value and date columns and never its status column |
| Text.LowerStr | app2.py:107 | lower-casing keeps the length of the name |
| Text.LowerStrChars | app2.py:107 | lower-casing turns each ASCII capital into its small letter, keeps every character that is neither an ASCII capital nor the KELVIN SIGN, and leaves no ASCII capital |
| Text.Contains | app2.py:108-115 | a needle that starts the text is contained in it, and a contained needle is no longer than the text |
| Text.ContainsIffOccurs | app2.py:108-115 | substring membership holds iff the needle starts at some position of the text |
| Text.ContainsAnyCase | app2.py:107-115 | a text holding any case variant of a lower-case keyword contains the keyword once lower-cased |
| Text.StrLessTotal | app2.py:154 | the key order is total on distinct strings; `StrLessIrreflexive` and `StrLessTransitive` make it a strict order |
| Text.NatToStringRoundTrip | app2.py:201-207 | the decimal digits printed for a count denote that count |
| Tables.Coerce | app2.py:152-153 | a nonzero coerced cell is a present cell that reads as that number; a cell that reads as a number gives that number; everything else counts 0 |
| Tables.Trunc | app2.py:159 | the truncated quantity lies within 1 of the sum, on the side of zero |
| Tables.TruncWhole | app2.py:159 | truncating a whole number loses nothing |
| Tables.Decode | app2.py:88-95 | the spreadsheet reading when there is one, otherwise the delimited-text reading; nothing only when both fail |
| Tables.Filter | app2.py:143-149 | a row survives a boolean mask iff it was there and passes; no rows are added |
| Tables.FilterCounts | app2.py:143-149 | a boolean mask keeps every passing row as many times as it occurs and drops every other row entirely |
| Tables.FilterAppend | app2.py:143-149 | masking a concatenation masks each part in turn, so surviving rows keep their relative order |
| Storage.FileStore.Save | app2.py:219-221 | the stored file sequence grows by exactly the uploaded (name, bytes) |
| Period.LoadAll | app2.py:85-97 | the loading loop yields exactly the decoded files, in storage order |
| Period.Decoded | app2.py:86-97 | at most one table per stored file, each under a name that is already lower case |
| Period.DecodedEmptyIff | app2.py:86-100 | nothing decodes iff every stored file fails both readers |
| Period.DecodedFromFiles | app2.py:86-97 | every decoded table comes from a stored file, under its lower-cased name, and is the decoder's reading of its bytes |
| Period.DecodedAppend | app2.py:86-97 | loading a sequence of stored files gives the tables of its first part followed by those of the rest, so tables keep storage order |
| Period.DecodedSingle | app2.py:86-97 | one stored file gives exactly its table under its lower-cased name when a reader accepts it, and nothing otherwise |
| Period.DecodedKeeps | app2.py:86-97 | no readable file is skipped: every stored file that decodes has its table, under its lower-cased name, among the loaded ones |
| Period.TagRows | app2.py:96-118 | one file's rows, as many as it has, each tagged with the platform detected from the file's name |
| Period.TaggedRowsAppend | app2.py:103 | concatenating the decoded tables distributes over the files, so rows keep file order |
| Period.TaggedRowsMembership | app2.py:96-118 | a row carries platform `p` in the concatenated table iff it is a row of some decoded file whose name reveals `p` |
| Period.ColumnUnionMembership | app2.py:103 | a column belongs to the concatenated table iff some decoded file has it |
| Period.RowsOf | app2.py:118-132 | a row is among the platform's rows iff it was concatenated with that platform's tag |
| Period.RowsOfCounts | app2.py:103-132 | each row appears among the platform's rows as many times as it was concatenated with that tag, so a file stored twice counts twice |
| Period.RowsOfAppend | app2.py:103-132 | selecting from a concatenation selects from each part in turn, so the rows keep their file order |
| Period.Survivors | app2.py:132-149 | no more rows reach grouping than were concatenated; `SurvivorsMembership` says which |
| Period.WithinBounds | app2.py:141-146 | an undated row (missing or unparseable date) passes only when no bound is set; with no bound every row passes; with both bounds set a date passes iff it lies between them, inclusively |
| Period.DateFilter | app2.py:141-146 | a row survives the date filter iff it was there and its parsed date meets every set bound; no rows are added |
| Period.CancelledIffSpelled | app2.py:148-149 | a present status is cancelled iff its text spells "cancel" somewhere in some mix of cases |
| Period.StatusFilter | app2.py:148-149 | a row survives the status filter iff it was there and is not cancelled; no rows are added |
| Period.SurvivorsMembership | app2.py:132-149 | a row reaches grouping iff it is tagged with the platform, satisfies every set date bound (when the date column exists), and is not cancelled (when the status column exists) |
| Period.UnboundedDateFilter | app2.py:141-146 | with no bound set the date filter keeps every row, including undated ones |
| Period.CancelledAnyCase | app2.py:148-149 | a status spelling "cancel" in any case, anywhere, excludes the row |
| Period.SkusMembership | app2.py:154 | a SKU is a group key iff some row carries it; rows without a SKU form no group |
| Period.InsertSorted | app2.py:154 | inserting a new key keeps the key list strictly sorted, with exactly the old keys plus the new one |
| Period.GroupBySku | app2.py:151-154 | the grouping loop yields the strictly sorted distinct SKUs and, per SKU, the sums of the coerced quantity and value cells |
| Period.SummarizePlatform | app2.py:131-161 | one platform's records: all tagged with it, one group total per SKU of the surviving rows, sorted by SKU, and none unless the SKU, quantity and value columns exist |
| Period.GroupRecords | app2.py:151-161 | emitting one record per group gives the platform's records: truncated quantity sum, value sum, every SKU covered |
| Period.GroupsAreRecords | app2.py:154-161 | the emitted group rows meet the per-platform record predicate |
| Period.ValueConservation | app2.py:153-160 | a platform's record values add up to the total coerced value of its surviving rows that carry a SKU |
| Period.QuantityConservation | app2.py:152-159 | when every surviving quantity is whole, the record quantities add up to the total coerced quantity of the rows carrying a SKU |
| Period.Summarize | app2.py:74-163 | the "no data" message comes iff no stored file decodes, and then with no records; records are ordered by platform and then SKU; each is the group total of a supported, grouped platform's surviving rows; every such (platform, SKU) has a record |
| Period.AppendOrdered | app2.py:130-161 | appending the next platform's SKU-sorted records keeps the summary ordered |
| Period.AppendExplained | app2.py:130-161 | appending a platform's records keeps every record a group total of its platform |
| Period.AppendComplete | app2.py:130-161 | after a platform's iteration, every SKU owed by a platform up to it has a record |
| Period.RecordsCoverDue | app2.py:151-161 | a platform's records carry its tag and cover every SKU it owes |
| Period.CompleteAll | app2.py:130-161 | completeness over the whole registry, in terms of surviving SKUs |
| Period.UniqueRecords | app2.py:154-161 | no two records share a (platform, SKU) pair |
| Upload.AfterLastDot | app2.py:216 | the extension is a dot-free suffix of the name, preceded by a dot unless it is the whole name |
| Upload.AfterLastDotOf | app2.py:216 | for a dot-free `e`, the extension of `stem + "." + e` is `e`, whatever dots the stem has |
| Upload.Extension | app2.py:216 | the extension is the lower-cased dot-free suffix of the name, preceded by a dot unless it is the whole name |
| Upload.ExtensionIgnoresCase | app2.py:216-231 | the dispatched extension is the lower-cased text after the last dot |
| Upload.ReadUpload | app2.py:224-231 | a 400 "Formato de arquivo não suportado" iff the extension is not xlsx/xls/csv; xlsx/xls read as a spreadsheet, csv as delimited text; a reader failure is a 500 |
| Upload.Head | app2.py:233 | the preview is a prefix of the rows: five rows, or all of them when fewer |
| Upload.FoundColumns | app2.py:284 | a column is found iff it is expected and the table has it; no more columns are found than are expected |
| Upload.FoundColumnsInOrder | app2.py:284 | the found columns are the expected columns at the positions the table has, those positions increasing: the expected order is kept and no column is repeated or invented |
| Upload.FoundColumnsCount | app2.py:284-285 | for distinct expected columns, the found columns are distinct and as many as the expected columns the table has |
| Upload.TotalsAgreeWithSchema | app2.py:287-322 | the single-file totals sum the same quantity and value columns as the cross-file summary; the count key is "vendas" only for Mercado Livre |
| Upload.RawSum | app2.py:288-289 | an empty column sums to 0; a defined raw sum equals the tolerant sum; a present cell that does not read as a number makes the sum raise |
| Upload.RawSumDefined | app2.py:288-323 | the raw column sum is defined iff every present cell reads as a number, and it then equals the tolerant sum |
| Upload.ColumnTotal | app2.py:288-289 | a total is absent iff its column is missing, fails iff the column exists but does not sum, and otherwise holds the column's sum |
| Upload.OutcomeOf | app2.py:282-328 | the catch-all gets the unknown-platform notice; otherwise fewer than four found columns gives the missing-columns notice; with four or more, the error comes iff the quantity or value total raises; otherwise the outcome carries the found columns and both column totals |
| Upload.BuildResumo | app2.py:281-328 | the summary dict built in place has exactly the keys and values of its branch: the name, and then the notice, the error text, or the count, item total, value total and found columns |
| Upload.CompleteTableSummary | app2.py:285-322 | a table with all five expected columns whose totals sum reports the row count, both totals as numbers, and all five columns |
| Upload.Render | app2.py:199-209 | rendering fails with a 500 iff the platform is supported and the value total is not a number; the catch-all gets the fixed sentence |
| Upload.ShownReadsBack | app2.py:201-207 | a missing key shows 0, a null shows None, and a count shows digits that denote it, after a minus sign when negative |
| Upload.Money | app2.py:201-207 | the value formats 0 when the key is missing and the number when it is one; formatting fails iff the value is present but not a number |
| Upload.RenderFailsIff | app2.py:199-209 | for a built summary, rendering fails iff the platform is supported, at least four columns exist, the quantity total does not raise, and the value column is the one missing |
| Upload.RenderCanFail | app2.py:287-295 | a Shopee export lacking only the product subtotal, with a summable quantity column, ends in a 500 |
| Upload.RenderDefaults | app2.py:199-207 | a summary holding only a notice or an error renders 0 orders, 0 items and a zero value |
| Upload.RenderShowsTotals | app2.py:199-207 | a full summary's line is the platform name, the table's row count with its key, the truncated item total ("None" when the quantity column is missing) with its word, and the value total formatted as money |
| Upload.Respond | app2.py:222-366 | after storage: a reader failure or unsupported extension is returned as is; otherwise the request fails, with a 500, iff rendering fails; on success the response holds the detected platform, the summary of its branch, the row and column counts, the columns, the five-row preview and the rendered line |
| Upload.UploadExcel | app2.py:211-366 | a missing file and an empty name are 400s that store nothing; otherwise the bytes are stored first and the answer is `Respond`'s: a 400 iff the extension is unsupported, a 500 when the reader fails or the text cannot be rendered, else the full response; every failure is a 400 or a 500 |
| Items.MaxOr0 | app_Version2.py:27 | the maximum bounds every element and is one of them; 0 for the empty sequence |
| Items.Patched | app_Version2.py:220-226 | an update overwrites name and description only when the body carries them, and never the id |
| Items.ItemStore.constructor | app_Version2.py:20-23 | the store starts with the two seed items, 1 and 2 |
| Items.ItemStore.NextId | app_Version2.py:26-27 | the fresh id is above every id in use: 1 on an empty store, otherwise the largest id plus one |
| Items.ItemStore.Get | app_Version2.py:112-115 | the stored item iff the id is in use, otherwise a 404 "Item não encontrado" |
| Items.ItemStore.List | app_Version2.py:78 | every stored item exactly once, in increasing id order |
| Items.ListedExactly | app_Version2.py:78 | listing in insertion order gives exactly the stored values, one per key, with increasing ids |
| Items.ItemStore.Create | app_Version2.py:157-168 | a missing, empty or nameless body is a 400 that changes nothing; otherwise exactly one item is added under the fresh id, with the given name and the description or "", and the rest stays as it was |
| Items.ItemStore.Update | app_Version2.py:213-227 | an unknown id is a 404, checked before the body; an empty or missing body is a 400; otherwise only that item changes, by `Patched`; insertion order is kept |

## Left out

- pandas itself is not modelled. Decoding bytes, `to_numeric` and `to_datetime` come from the `Readers` parameter.
- Floating-point rounding is not modelled: values are exact reals. The `:.2f` formatting is the `money` parameter.
- Period.Summarize: SKU cells are modelled as text. pandas keeps numeric SKU cells as numbers, groups them numerically and returns them as numbers. The model orders every SKU by code point.
- Period.Summarize: the date bounds come in already parsed as optional instants. Three things are not modelled:
  - a bound string that `pd.to_datetime` cannot parse (the request then fails);
  - the query-string versus JSON-body plumbing of app2.py:77-78;
  - the `try/except: pass` around the column conversion.
- Upload.RawSum: cells are text read by `rd.number`, so the model cannot tell a numeric column from a text one. It adds every cell that reads as a number: cells "3" and "4" give 7.0. When pandas keeps such a column as text, `sum()` concatenates the cells to "34" and `int()` then gives 34; a column mixing numbers and text raises. Those sums are not modelled.
- Upload.Respond: the response omits `dtypes` and the NaN-to-null cleanup of the preview (`clean_preview`). Preview rows are the model's rows, where a missing cell is an absent key.
- Upload.Respond: a date cell (a pandas `Timestamp` or `NaT`) among the first five rows is not modelled. `clean_preview` (app2.py:341-346) passes it through unchanged, and `json.dumps` (app2.py:355-363) then raises, which gives a 500. The model answers with the preview instead.
- Upload.BuildResumo: the text of the caught exception is the `detail` parameter.
- Upload.ReadUpload: an xlsx/xls/csv file the reader cannot parse ends in a 500, because the reader's exception is not caught (app2.py:225-229). The reader's own error text is not modelled. A null value total at the `:.2f` format also ends in a 500 (Upload.Render, app2.py:201).
- Text.LowerStr: only 'A'..'Z' and the KELVIN SIGN are lowered; every other character is kept. Python's `str.lower` also lowers letters such as 'É' to 'é', and turns U+0130 into two characters ('i' then U+0307), so the length and the kept characters stated by Text.LowerStr and Text.LowerStrChars hold of the model, not of `str.lower`. The lower-cased texts are only searched for ASCII keywords (app2.py:107-115) and compared with ASCII extensions (app2.py:216-224), and no keyword or extension has an 'i' followed by a combining mark or at its end, so no result of the model differs.
- Listing, clearing and deleting stored files (app2.py:43-71) are not modelled, nor are upload ids and timestamps. The file store only grows.
- Flask plumbing is not modelled: routing, the JSON error handler's body (app2.py:371-380, app_Version2.py:231-240), the 201 status and `Location` header of item creation, Swagger and CORS. Errors are modelled by their status and description.
- Items.ItemStore.Create: only JSON-object bodies are modelled. A JSON array, string or number body is not; for example, `["name"]` would pass the `"name" in data` test and then raise on `data["name"]`.
- Items.ItemStore.Update: only JSON-object bodies are modelled, as for creation. A non-empty JSON array such as `["name"]` passes the `not data` test (app_Version2.py:216-224) and then raises on `data["name"]`.
- The health endpoint (app_Version2.py:30-50) is not modelled: it only reads the clock.
