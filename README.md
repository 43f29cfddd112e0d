# Latka scraper extension, modelled in Dafny

This project models the deterministic core of the Latka scraper browser extension and of
the Apps Script web app it exports to, and proves properties of that model.

- **The de-duplicating sheet writer.** The Apps Script `doPost` (`DedupWriter`, webscript.dfy)
  does the following:
  - appends a batch of rows to a sheet;
  - optionally clears the sheet first;
  - seeds a header row on an empty sheet;
  - skips copies of the header;
  - skips rows whose normalised "unique by" key is empty, already on the sheet, or earlier in
    the batch;
  - answers counts.

  The sheet is a `class` whose grid of strings is updated in place. A cell holds the text
  written to it: the parsing that Google Sheets applies to written text is not modelled. `DoPost` is proved
  against a function `Post` of the sheet before the call. Lemmas about `Post` state:
  - the tally;
  - that keys are unique;
  - that the call only appends;
  - header seeding;
  - that replaying a batch writes nothing.
- **Record shaping on a Latka page.** The page's table comes already extracted: rows of
  cells, each with its text, its anchors and the LinkedIn matches of its buttons' `onclick`
  handlers. The model covers:
  - the sidebar's `scrapeLatkaTable` and `flattenToValues` (`SidebarScrape`);
  - the background tab's `scrapeLatkaTableDirect` (`DirectScrape`);
  - the older content script's `scrapeLatkaTable`, which drops the Interview column
    (`LegacyScrape`);
  - the link classification of `extractCellData`, shared by the sidebar and the older
    script (`CellLinks`);
  - the preview lists of both panels.
- **The data preview** (`DataPreview`):
  - CSV text, proved against a CSV reader: reading the text back gives the flattened grid;
  - the search filter;
  - the splitting of link cells.
- **The background script's bookkeeping** (`TabBookkeeping`). Its state is
  `chrome.storage.local`, a map from the four keyed prefixes to typed values. It covers:
  - checkpoints saved, read and cleared per tab, with the minimal checkpoint kept when the
    storage quota is exceeded;
  - tab groups per primary tab, and their cleanup;
  - the records of worker tabs;
  - the tab listeners;
  - the bounded retry loop that dispatches the scrape instruction;
  - the page number the instruction carries.
- **The connection settings** (`ConnectionSettings`): the page's `localStorage` as the
  configuration modal reads and writes it. This covers the two names of the "connected"
  flag and their migration, URL validation, saving, disconnecting, and wiping backups.

Outcomes of browser and Apps Script services are parameters of the operations that meet
them:
- whether a storage write was stored or rejected, and with which message;
- whether grouping is supported and which group is created;
- whether closing tabs or joining a group succeeds;
- whether a message reaches a tab;
- the clock.

String operations follow ECMAScript (`JsText`): `trim` removes the full WhiteSpace and
LineTerminator set, and `split`, `join`, `includes` and `startsWith` work as they do in
JavaScript. Records are ordered lists of fields (`Page.Record`), because JavaScript objects
keep string keys in insertion order and `Object.keys` exposes that order. That holds for keys
that are not array indices, which no column name here is.

## Model

| member | source | states |
|---|---|---|
| DedupWriter.LastColumn | webscript.js:124 | the sheet's width, taken as the length of its longest row: every row fits within it, some row reaches it, and it is 0 for an empty sheet; cells holding "" count toward it |
| DedupWriter.HeaderRow | webscript.js:122-128 | the header is row 1 read at the sheet's width when some cell of it has non-blank text, and empty exactly when the sheet is empty or row 1 is blank |
| DedupWriter.MakeKey | webscript.js:149-158 | the key is "" when no columns are given, and is always already trimmed |
| DedupWriter.MakeKeySelected | webscript.js:149-158 | two rows whose selected cells agree after the per-cell trim and lower-casing have the same key; cells outside the selection do not matter |
| DedupWriter.MakeKeyReadBack | webscript.js:58-62 | reading a row back at any width at least its own length, with missing cells as "", does not change its key |
| DedupWriter.RowsEqualIff | webscript.js:160-168 | rows are equal exactly when they have the same length and every pair of cells matches after trim and lower-case |
| DedupWriter.RowsEqualEquivalence | webscript.js:160-168 | header comparison is reflexive, symmetric and transitive |
| DedupWriter.NameMapSpec | webscript.js:133-136 | a folded name is in the name map exactly when some header cell folds to it, and it maps to the last such column |
| DedupWriter.RawColumnsSpec | webscript.js:137-145 | a column is collected exactly when some selector contributes it |
| DedupWriter.ResolvedPositions | webscript.js:137-146 | the resolved columns have no duplicates; a number n >= 1 contributes column n-1 and 0 contributes column 0 |
| DedupWriter.ResolvedOrigins | webscript.js:137-146 | every resolved column comes from some selector of the request |
| DedupWriter.ResolvedName | webscript.js:141-143 | a name selector resolves exactly when some header cell has the same trimmed, lower-cased text, and then to the last such column |
| DedupWriter.ResolveUniqueCols | webscript.js:130-147 | the two loops and the de-duplication compute the resolved columns, each held once |
| DedupWriter.KeyColumns | webscript.js:49-51 | the key columns are never empty (column 0 when nothing resolves) and have no duplicates |
| DedupWriter.KeysOfSpec | webscript.js:56-63 | a key is in the set of a sheet's keys exactly when some row has it |
| DedupWriter.CollectKeys | webscript.js:54-63 | the first loop collects exactly the keys of the data rows read at the sheet's width |
| DedupWriter.AdmitStep | webscript.js:70-87 | one turn either stages the row under a new, non-empty key, or leaves the staged rows and keys alone; afterwards the row is a header copy, has an empty key, or has a known key |
| DedupWriter.PlanCounts | webscript.js:66-87 | written, skipped, header-skipped and keyless rows add up to the batch size, and header-skipped counts the header copies |
| DedupWriter.HeaderCopiesPositive | webscript.js:72-75 | a header copy anywhere in the batch is counted |
| DedupWriter.PlanKeys | webscript.js:80-86 | after the loop the known keys are the sheet's keys plus those of the staged rows |
| DedupWriter.PlanStaged | webscript.js:72-86 | staged rows have non-empty keys that are new to the sheet and pairwise distinct, and none is a header copy |
| DedupWriter.PlanCovers | webscript.js:70-87 | every incoming row is a header copy, has an empty key, or has a key known after the loop |
| DedupWriter.PlanOrder | webscript.js:70-87 | the staged rows are picked from the batch in submission order |
| DedupWriter.PlanPicks | webscript.js:70-87 | the staged rows are picked in order and none of the picked rows is a header copy |
| DedupWriter.PlanNothingNew | webscript.js:70-87 | a batch whose rows are all header copies, keyless or already known stages nothing and learns no key |
| DedupWriter.PlanBatch | webscript.js:65-87 | the second loop computes the plan; written, skipped and header-skipped rows number at most the batch size; no two staged rows share a key |
| DedupWriter.Commit | webscript.js:89-109 | a successful write appends exactly the staged rows with the counts; a failed write leaves the sheet and reports a width mismatch; rows of the range's positive width always succeed |
| DedupWriter.SetUpShape | webscript.js:35-63 | what a call fixes before its loop: the prepared sheet, the header, the key columns, the options, the width and the sheet's keys |
| DedupWriter.PostCounts | webscript.js:11-109 | an empty batch answers all zeros and leaves the sheet; otherwise `total` is the batch size and written + skipped + header-skipped + keyless = total |
| DedupWriter.AppendPlain | webscript.js:89-99 | on a sheet that is not seeded, the rows present after clearing stay, and the rows added after them are picked from the batch in order |
| DedupWriter.AppendSeeded | webscript.js:42-99 | seeding an empty sheet writes `values[0]`, then staged rows picked in order from the batch |
| DedupWriter.PostAppendOnly | webscript.js:89-99 | without `clear` the existing rows are a prefix of the new sheet, and the rows after them come from the batch in submission order |
| DedupWriter.DataKeysRead | webscript.js:54-63 | every data row's key is among the keys read from the sheet |
| DedupWriter.PostNoDuplicateKeys | webscript.js:54-99 | no two rows written in one call share a key, every written key is non-empty, and none equals the key of a data row already on the sheet |
| DedupWriter.PostHeaderSeed | webscript.js:41-75 | on an empty sheet with `hasHeader`, `values[0]` becomes row 1 once, is counted under `headerSkipped`, and no row written below it equals it |
| DedupWriter.HeaderRowRectangular | webscript.js:122-128 | on a rectangular sheet the header is row 1 itself, or empty when row 1 is blank |
| DedupWriter.ReplayPlan | webscript.js:54-87 | after one pass over a rectangular batch, the sheet's keys are the keys the pass ended with, and a second pass stages nothing |
| DedupWriter.PostNothingStaged | webscript.js:35-109 | a call without `clear` that stages nothing leaves the sheet unchanged and reports 0 written |
| DedupWriter.ReplayFirstCall | webscript.js:35-109 | the first call of a replay succeeds and keeps the sheet rectangular with the same header |
| DedupWriter.PostReplay | webscript.js:35-109 | sending a written batch again without `clear` writes 0 rows and leaves the sheet as it was |
| DedupWriter.Sheet.DoPost | webscript.js:4-113 | one locked call updates the sheet and answers exactly as `Post` of the sheet before it |
| DedupWriter.Sheet.ClearAndSeed | webscript.js:34-47 | the sheet is cleared on request; an empty sheet asked to seed gets `values[0]` as row 1 and header, and fails on an empty first row |
| CellLinks.ExtractCellData | src/content/sidebar.js:133-170 | the loop over the anchors yields the trimmed text and the links built by first-match classification |
| CellLinks.AddLinkSlot | src/content/sidebar.js:148-158 | one anchor sets only its own category's property |
| CellLinks.LinksOfCategory | src/content/sidebar.js:143-167 | `linkedin`, `youtube`, `profile`, `location` and `industry` each hold the last link of their category, and are unset without one |
| CellLinks.AddLinkWebsite | src/content/sidebar.js:159-166 | a getlatka.com link outside the other categories sets `website`; an external http link sets it only while it is unset |
| CellLinks.WebsiteNonEmpty | src/content/sidebar.js:159-166 | a `website` that is set is never empty |
| CellLinks.LinksOfWebsite | content.js:125-162 | `website` is the last plain getlatka.com link; without one, the first external http link; otherwise unset |
| Page.AddMissing | src/content/sidebar.js:247-251 | the second pass keeps every field and adds, with '', each column the record lacked, each exactly once; every added key is a requested column absent from the record; nothing changes when every column is present |
| SidebarScrape.ColumnFields | src/content/sidebar.js:209-245 | the first pass gives a record whose keys are exactly the requested columns, in order |
| SidebarScrape.SetColumns | src/content/sidebar.js:209-245 | the loop of property assignments builds those fields |
| SidebarScrape.ScrapeRow | src/content/sidebar.js:205-253 | both passes over the requested columns give the row's record |
| SidebarScrape.ScrapeLatkaTable | src/content/sidebar.js:172-257 | the loops over rows and columns compute the scrape |
| SidebarScrape.SidebarColumnsDistinct | src/content/sidebar.js:174-186 | the eleven requested columns are distinct |
| SidebarScrape.ScrapedShape | src/content/sidebar.js:191-205 | no table gives []; otherwise one record per row after the header, each with exactly the eleven requested keys in order |
| SidebarScrape.RowRecordValue | src/content/sidebar.js:211-245 | each column reads the first cell under its base header: 'Name' for `Name`/`company_links`, 'Founder' for `Founder`/`founder_links`, else its own name; '' without that header or past the last cell; link columns hold every href joined by ',', others the trimmed text |
| SidebarScrape.LinkColumnSplits | src/content/sidebar.js:225-234 | a link column split on ',' gives back the cell's hrefs in order, when no href holds a ',' |
| SidebarScrape.PreviewSpec | src/content/sidebar.js:288-294 | the preview has the first min(n, 5) records in order; name, revenue and team size show the record's Name, Funding and Team Size, and read 'N/A' exactly when that value is missing, empty or 'N/A' |
| SidebarScrape.FlattenSpec | src/content/sidebar.js:523-540 | no records give []; otherwise the first row is the first record's keys, there is one more row than records, every row has the header's width, and cells hold the record's value or '' |
| SidebarScrape.FlattenToValues | src/content/sidebar.js:523-540 | the loop over the records builds that grid |
| SidebarScrape.ExportGrid | src/content/sidebar.js:523-540 | a non-empty scrape flattens to a rectangular grid of eleven columns headed by the requested column names |
| SidebarScrape.Sidebar.StartScraping | src/content/sidebar.js:282-312 | the module state holds the scrape; the flag says whether it found anything; the preview follows from it; the count shown becomes the number of records when it found any and is left as it was otherwise |
| SidebarScrape.Sidebar.SetScrapedTableData | src/content/sidebar.js:569-571 | replaces the records and leaves the flag alone |
| DirectScrape.FirstLabelled | src/content/content.js:263-272 | `querySelector` finds the first anchor carrying the label, and finds one exactly when some anchor carries it |
| DirectScrape.AnchorLinkedIn | src/content/content.js:282-288 | the anchor links kept are exactly the non-empty hrefs that mention linkedin.com |
| DirectScrape.OnclickLinkedIn | src/content/content.js:290-303 | each button match becomes one URL, in order, prefixed with `https://www.` unless it starts with http |
| DirectScrape.ColumnFields | src/content/content.js:244-319 | the first pass gives a record whose keys are exactly the requested columns, in order |
| DirectScrape.SetColumns | src/content/content.js:244-319 | the loop of property assignments builds those fields |
| DirectScrape.ScrapeRow | src/content/content.js:241-327 | both passes give the row's record |
| DirectScrape.ScrapeLatkaTableDirect | src/content/content.js:206-330 | the loops compute the scrape |
| DirectScrape.CollectFounderLinks | src/content/content.js:280-304 | the two loops collect the anchor links, then the buttons' URLs |
| DirectScrape.DirectColumnsDistinct | src/content/content.js:208-221 | the twelve requested columns are distinct |
| DirectScrape.ScrapedShape | src/content/content.js:226-240 | no table gives []; otherwise one record per row after the header, each with exactly the twelve requested keys in order |
| DirectScrape.RowRecordSource | src/content/content.js:248-318 | each column reads the first cell under its base header, and is '' without that header or past the row's last cell |
| DirectScrape.LabelledLinkSpec | src/content/content.js:260-276 | `Website` and `LinkedIn` hold the href of the first anchor with the matching aria-label, or '' when there is none or its href is empty |
| DirectScrape.FounderLinksSpec | src/content/content.js:278-308 | `Founder LinkedIn` holds each distinct link once, in first-occurrence order; the links are exactly the linkedin.com anchor hrefs and the full URLs of the button matches |
| DirectScrape.FounderLinksSplit | src/content/content.js:306-308 | the joined value split on ',' gives the links back, when none holds a ',' |
| LegacyScrape.InterviewIndex | content.js:173-184 | the index is the last header cell whose trimmed, lower-cased text contains 'interview', or -1 |
| LegacyScrape.FindInterviewColumn | content.js:173-184 | the loop over the header cells finds that index, and -1 for a table without rows |
| LegacyScrape.ScrapeRow | content.js:186-198 | the loop over a row's cells skips the Interview position and extracts every other cell |
| LegacyScrape.ScrapeLatkaTable | content.js:164-206 | the loops compute the scrape; no table gives [] |
| LegacyScrape.RowOutSpec | content.js:186-198 | a row loses exactly the cell at the Interview index when it has one, and the other cells keep their order |
| LegacyScrape.KeptSpec | content.js:186-203 | the result is exactly the rows left with cells, in table order |
| LegacyScrape.HeaderFirst | content.js:186-203 | the header row, when it keeps a cell, is element 0 |
| LegacyScrape.PreviewSpec | content.js:237-247 | the preview has the first min(n, 5) rows; name, revenue and team size show the text of cells 1, 2 and 11, and read 'N/A' exactly when the row has no such cell or its text is empty or 'N/A' |
| LegacyScrape.LegacyPanel.StartScraping | content.js:230-270 | the panel holds the scrape; the flag says whether it found anything; when it did, the count shown is the number of rows less the header row, and otherwise it is left as it was |
| DataPreview.NeedsQuotesIff | src/content/data-preview-modal.js:217-219 | a field needs quotes exactly when it contains ',', '"' or a line feed |
| DataPreview.ConvertDataToCSV | src/content/data-preview-modal.js:199-200 | no records give the empty text |
| DataPreview.FieldRoundTrip | src/content/data-preview-modal.js:214-220 | every written field reads back as itself, quoted or not |
| DataPreview.RecordRoundTrip | src/content/data-preview-modal.js:213-221 | a written line reads back as its fields |
| DataPreview.TextRoundTrip | src/content/data-preview-modal.js:224 | lines joined by line feeds read back as the rows |
| DataPreview.CsvRoundTrip | src/content/data-preview-modal.js:199-225 | reading the CSV text back gives the header line of the first record's keys, then each record's values under them, '' when missing: the flattened grid |
| DataPreview.FilterTableSpec | src/content/data-preview-modal.js:119-140 | a blank term shows every row unchanged; any other term shows, in order, exactly the rows where some column's lower-cased value contains the lower-cased term |
| DataPreview.SplitLinksSpec | src/content/data-preview-modal.js:101-103 | every link shown is non-empty, trimmed and free of ','; clean links joined by ',' come back in order |
| DataPreview.FounderLinksShown | src/content/data-preview-modal.js:100-108 | the founders' links the background tab scrapes are shown one anchor per link |
| TabBookkeeping.SaveThenGet | src/background/background.js:158-202 | get after a stored save returns the state; after a quota error and a stored retry, the minimal state; any other failure is reported and leaves the store; no other key changes |
| TabBookkeeping.MinimalSpec | src/background/background.js:176-191 | the minimal checkpoint keeps the progress fields, the time and the base URL, drops the pages and is marked minimal |
| TabBookkeeping.ClearSpec | src/background/background.js:206-215 | clearing removes exactly that tab's checkpoint |
| TabBookkeeping.GroupSpec | src/background/background.js:306-356 | a stored group is returned without creating one; unsupported or failed grouping gives -1 and stores nothing; a new group is stored and returned |
| TabBookkeeping.CleanupSpec | src/background/background.js:359-385 | cleanup removes the group and the multi-page flag when a group is stored and its tabs close, changes nothing otherwise, and a second run changes nothing |
| TabBookkeeping.CreateSpec | src/background/background.js:229-288 | a created worker tab is recorded with its primary tab, URL, time and group, and the primary tab is flagged as scraping several pages |
| TabBookkeeping.TabRemovedSpec | src/background/background.js:412-417 | closing a tab removes its checkpoint and its worker record and nothing else |
| TabBookkeeping.TabUpdatedSpec | src/background/background.js:218-226 | a finished load outside getlatka.com/saas-companies clears the tab's checkpoint; any other update changes nothing |
| TabBookkeeping.WellTypedKept | src/background/background.js:158-417 | every operation keeps each key holding the kind of value its prefix names |
| TabBookkeeping.ExtensionStorage.SaveScrapingState | src/background/background.js:158-193 | the store and outcome after a save are as `SaveState` gives them |
| TabBookkeeping.ExtensionStorage.GetScrapingState | src/background/background.js:195-204 | returns the stored checkpoint or nothing |
| TabBookkeeping.ExtensionStorage.ClearScrapingState | src/background/background.js:206-215 | removes the tab's checkpoint |
| TabBookkeeping.ExtensionStorage.GetOrCreateScrapingGroup | src/background/background.js:306-356 | the store and group id are as `GetOrCreateGroup` gives them |
| TabBookkeeping.ExtensionStorage.CleanupScrapingGroup | src/background/background.js:359-385 | the store is as `Cleanup` gives it |
| TabBookkeeping.ExtensionStorage.CreateBackgroundScrapingTab | src/background/background.js:229-289 | the store and result are as `CreateTab` gives them |
| TabBookkeeping.ExtensionStorage.OnRemoved | src/background/background.js:412-417 | the store is as `TabRemoved` gives it |
| TabBookkeeping.ExtensionStorage.OnUpdated | src/background/background.js:218-226 | the store is as `TabUpdated` gives it |
| TabBookkeeping.SendScrapingInstruction | src/background/background.js:388-409 | at most `retries` attempts; it stops at the first delivery; it waits 2000 ms between attempts and never after the last; running out of attempts returns normally |
| TabBookkeeping.ParseIntDecimal | src/background/background.js:281 | `parseInt` reads a decimal numeral back as its number |
| TabBookkeeping.DispatchedPage | src/background/background.js:280-281 | the page dispatched is 1 without a `page` parameter, and the parameter's number when it is a decimal numeral |
| ConnectionSettings.MigratedSpec | src/content/configuration-modal.js:40-46 | migration leaves no non-empty old flag; it takes the old flag's value when that was non-empty and changes nothing otherwise; no other key changes |
| ConnectionSettings.MigrateTwice | src/content/configuration-modal.js:40-46 | a second migration changes nothing |
| ConnectionSettings.InitializedSpec | src/content/configuration-modal.js:48-57 | after initialisation a stored non-empty URL means connected; the URL itself never changes |
| ConnectionSettings.WithoutBackupsSpec | src/content/configuration-modal.js:30-37 | exactly the keys starting with `latka_backup_` are removed, and other values are kept |
| ConnectionSettings.SavedConfigSpec | src/content/configuration-modal.js:199-229 | a save that is enabled with a non-empty valid URL stores the trimmed URL, reads as connected and, after the refresh's migration, leaves no non-empty '@' flag; any other save changes nothing; no unrelated key changes |
| ConnectionSettings.DisconnectedSpec | src/content/configuration-modal.js:234-238 | disconnecting removes the URL and leaves no non-empty '@' flag; it still reads as connected exactly when the '@' flag held 'true', which the refresh moves to the current name; no unrelated key changes |
| ConnectionSettings.SaveThenDisconnect | src/content/configuration-modal.js:199-238 | disconnecting after a save that went through always reads as disconnected |
| ConnectionSettings.Settings.GetAppsScriptConnected | src/content/configuration-modal.js:17-22 | connected exactly when either name of the flag holds 'true' |
| ConnectionSettings.Settings.MigrateLocalStorageKeys | src/content/configuration-modal.js:40-46 | the storage is as `Migrated` gives it |
| ConnectionSettings.Settings.InitializeConnectionStatus | src/content/configuration-modal.js:48-57 | the storage is as `Initialized` gives it |
| ConnectionSettings.Settings.ClearBackupData | src/content/configuration-modal.js:30-37 | the loop over the keys leaves the storage without its backup keys |
| ConnectionSettings.Settings.SaveSheetsConfig | src/content/configuration-modal.js:199-229 | the storage writes followed by the refresh's `initializeConnectionStatus` give `SavedConfig`, and the result says whether the save passed its checks |
| ConnectionSettings.Settings.DisableSheetsConnection | src/content/configuration-modal.js:234-238 | the storage writes followed by the refresh's `initializeConnectionStatus` give `Disconnected` |
| JsText.TrimSpec | webscript.js:153 | `trim` leaves a slice that neither starts nor ends with white space, and is empty exactly when its input is blank |
| JsText.TrimIdempotent | webscript.js:157 | trimming twice is trimming once |
| JsText.SplitJoin | src/content/data-preview-modal.js:102 | splitting a join on a separator that no part contains gives the parts back |

## Left out

- DOM and UI. Creating and showing the sidebar, panels and modals, status text, the progress
  animation, notifications, the HTML of the preview tables and event wiring are not modelled.
  The scrapers start from the table already extracted: texts, anchor hrefs and aria-labels,
  and the LinkedIn matches of each button's `onclick` handler. The regular expression that
  finds those matches is not modelled.
- Cell text. `innerText` (sidebar, background tab) and `textContent` (older script) are both
  taken as the cell's text. Their layout-dependent differences are not modelled.
- `JsText.Lower`: maps only the ASCII capitals. The Unicode case mapping of `toLowerCase`
  is not modelled.
- Request parsing in `doPost`. The following are not modelled:
  - a missing or unparsable JSON body;
  - a missing sheet;
  - the document lock's 30-second timeout and its error answer.

  The request arrives already parsed, with its defaults applied. Selectors that are not
  finite numbers or strings are `Unusable`. Non-integer numbers are not modelled.
- `_resolveUniqueCols`: its name map is a plain object, so inherited names such as
  `__proto__` behave differently there. This is not modelled.
- The export's network path is not modelled. This covers `handleGoogleSheetsExport`,
  `exportViaAppsScript` and `testAppsScriptConnection`, which are message round trips and
  `fetch` calls.
- `DedupWriter.PostReplay`: it is proved only under these conditions:
  - the sheet and the batch are rectangular with one positive width;
  - the first call has a header to go by: the sheet is non-empty after clearing, or the
    call seeds a header that has text.

  Without these, a replay can write rows:
  - a header copy of another width is not recognised;
  - a first call with no header turns its first written row into the header.
- `DedupWriter.LastColumn`: the sheet's extent is taken to be its stored cells.
  `getLastRow()` is the number of rows and `getLastColumn()` the length of the longest row,
  so a cell holding "" counts toward both. In Apps Script both count only cells with content.
  Where "" cells sit at the edge of the sheet, `Post`, `PostReplay` and `HeaderRow` differ from
  the program as the next three lines say.
- `DedupWriter.Post`: on the sheet `[["Name",""],["a",""]]`, the model's width is 2, so a
  batch of one-cell rows ends in `WidthMismatch`. The program's width is 1 and it writes them.
  A written row whose cells are all "" stays on the model's sheet. The program's next
  `getLastRow()` does not count it, so the next call writes over it and does not read its key.
- `DedupWriter.PostReplay`: a batch row whose cells are all "" but whose key is not empty
  (uniqueBy `[1,2]` gives the key `||`) is written by the first call. The model's replay skips
  it as known. The program's replay does not see that row and writes it again.
- `DedupWriter.HeaderRow`: reads row 1 at the longest row's length. The program reads it at
  the content width, so a header whose last cells hold "" is shorter there. A later batch
  copy of the seeded header then differs in length from it and is written as a data row.
  The model counts that copy in `headerSkipped`.
- `DedupWriter.Commit`: a written cell keeps the exact text sent, and `ReadRow` reads that text
  back. Google Sheets' `setValues` parses text that looks like a number, percentage, currency,
  date or boolean, or that starts with '='. It also drops a leading apostrophe. `getValues`
  then returns the parsed value, and `_makeKey` and `_rowsEqual` compare its `String()` form.
  The three replay lemmas below depend on reading back the text written.
- `DedupWriter.PostReplay`: on the sheet `[["Code","Name"]]` with the batch `[["007","Acme"]]`
  and no `uniqueBy`, Sheets stores 7 in A2. The program's replay then reads the key "7" and
  writes the row again. The model reads back "007" and writes nothing. Values such as
  "1,200", "1.50" and "2024-01-15" behave the same way.
- `DedupWriter.ReplayPlan`: its key set after the pass is the one the written text gives.
  Where Sheets parses a key cell, the program reads a different key, as for "007" above.
- `DedupWriter.ReplayFirstCall`: its claim that the header is kept and a second pass stages
  nothing assumes that the written cells read back as the text sent. Sheets' parsing breaks
  this, as for "007" above.
- `TabBookkeeping.SendScrapingInstruction`: waits a constant 2000 ms between attempts, as
  the code does.
- `TabBookkeeping.CreateTab`: the `created < Date.now() - 1000` test that decides whether a
  new tab joins an existing group is one parameter, `joinOk`. It says whether that step
  succeeds or is skipped. The following are not modelled:
  - the 5-second wait before dispatching;
  - badge updates;
  - the browser tab that stays open when a later step throws.
- Storage failures. Reads and removals of `chrome.storage.local` are taken to succeed. Only
  the writes of `saveScrapingState` and of group creation can fail in the model.
- Concurrency. Storage calls and message handlers in the extension interleave
  asynchronously. Each modelled operation is one atomic step.
- Checkpoint fields. Fields of a saved checkpoint other than the seven the minimal checkpoint
  names are not modelled.
- The multi-page coordinator. `checkAndResumeMultiPageScraping` and `receivePageData` are
  imported by src/content/content.js:41 from ./sidebar.js, which defines neither of them, so
  they are not part of this model. Neither are `handleBackgroundTabScraping` and
  `checkIfBackgroundScrapingTab`, which are message plumbing.
- The message listener's `checkMultiPageScraping` and `checkIfBackgroundTab` answers are
  functions (`MultiPageActive`, `IsBackgroundTab`). The listener itself is not modelled.
- The CSV reader in `DataPreview` is only a partner for the round trip. It reads records
  separated by a line feed, which is what the writer emits, not the CRLF of RFC 4180. Like
  the writer, it does not quote carriage returns.
- `Page.AddMissing`: states which fields are added, but not their order, which is the order of
  each column's first occurrence in the requested columns.
- Tooling is not modelled: the popup, the root background.js (badge only), dev servers,
  hot reload, webpack config and the validation script.
