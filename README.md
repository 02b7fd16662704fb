- **Where the code does something its own comments, labels or interface do not lead one to expect, the model follows the code.** Each item names the text it departs from.
  - Restoring a file, and deleting one permanently, replace the file list on screen with every stored file (src/App.tsx:497, 512). The comment at src/App.tsx:505 says the file goes back to its original folder, and the list on screen is otherwise the selected folder's query (src/App.tsx:172-182).
  - The drop zone also accepts files while the trash folder is selected. Such a file is stored as an active file whose home is the trash folder (src/App.tsx:389-392), while the trash folder lists only deleted files. It therefore shows in no folder view (`Lifecycle.DroppedIntoTrashIsUnlisted`).
  - Deleting a folder does not protect the trash folder (src/App.tsx:451-466). Only the folder list hides its rename and delete buttons (src/App.tsx:776-781).
  - A PDF ingested from an upload stores its extracted amount without a tax flag (src/App.tsx:251-268). The folder total's comment at src/App.tsx:608 calls that case a tax-excluded amount, so it counts the amount with tax added (`Lifecycle.IngestedInvoiceAmount`).
  - A form opened to edit an existing invoice loads that invoice's data (src/components/files/InvoiceCreator.tsx:109-113). The tax radio buttons read a separate state that starts as "included" (src/components/files/InvoiceCreator.tsx:107), so the stored tax choice is not shown. The total starts at 0.
  - The invoice table's last row is labelled 合計金額（税込）, the tax-included grand total (src/components/files/InvoiceCreator.tsx:346). It is recovered correctly only where digits are grouped with `,` (see `InvoiceTable.ItemRowsTotal` under "Left out").
  - An empty upload is stored, but it cannot be downloaded. Its data URL `data:<mime>;base64,` has an empty payload, which the download handler reports as missing data (src/App.tsx:418-421, `Lifecycle.EmptyUploadCannotDownload`). The ingest-then-download round trip holds only for non-empty content.

# Folder management and invoices: a verified model

This project models the core of a browser-based document manager written
in TypeScript and React. Users keep office documents (Excel, PowerPoint,
Word, PDF) in folders. They soft-delete documents to a trash folder,
restore them, and write invoices whose PDF is stored beside the uploads.

The model covers two source files.

`src/App.tsx` is the folder and file lifecycle over a browser-local store.
- Store setup creates the trash folder on first run.
- Folder commands: create, rename, and delete (deleting a folder also deletes its files).
- File commands: move to trash, restore, permanent delete, upload ingest through a MIME allow-list, and adding a finished record.
- Views and displays: the folder views, the display order of folders, the folder's invoice total, and the `data:` URL header parse used by download (the `data:` URL form of section 3 of RFC 2397).

`src/components/files/InvoiceCreator.tsx` is the invoice form.
- Item list edits and the total derived from the items.
- The PDF's item table: rows, padding, tax row and grand-total row.
- The seal font-size loop.
- The file record a created invoice becomes.

Modules:

- `Records` (records.dfy): the stored record shapes and the flag-pair invariant.
- `Lifecycle` (lifecycle.dfy): pure record-level rules. This holds the folder views, trashing and restoring one record, the allow-list, the ingest record, and the folder-delete cascade.
- `Store` (store.dfy): the class `FileManager`. Its fields are the file table, the folder table, the file list on screen and the selected folder. Each command of `App.tsx` is a method on it.
- `FolderOrder` (folder_order.dfy): the folder display order as an insertion sort, proved sorted and a permutation.
- `Totals` (totals.dfy): the folder's invoice total.
- `DataUri` (data_uri.dfy): the download header parse.
- `Items` (items.dfy): item-list edits and the item total.
- `InvoiceTable` (invoice_table.dfy): what `createPDF` computes. That is the amount due, the table, the seal size, the file name and the record.
- `Creator` (creator.dfy): the class `InvoiceForm`, holding the form state and `createPDF` handing its record to a `FileManager`.

## Modelling choices

- **Amounts.** Amounts are whole yen, computed with integer formulas and floor division:
  - `Math.round(t * 1.1)` is `(11t + 5) / 10`.
  - `Math.floor(s + s * 0.1)` is `(11s) / 10`.
  - `Math.ceil(t / 11)` is `(t + 10) / 11`.
- **Store tables.** The two store tables are maps from id to record. A store `add` whose id is already taken rejects, and the state update after it is never reached. So it is modelled as "nothing changes".
- **Listing order.** A table query returns records in primary-key order. That order is not modelled: a listing is "every matching record once, in some order".
- **Name comparison.** `localeCompare` is modelled as lexicographic order on characters.
- **Parameters.** Confirmation dialogs and name prompts are parameters: a `bool`, or an `Option<string>` where `None` is a cancelled prompt. Fresh ids, clock readings, the extracted invoice amount, the font downloads, the seal's text width at each size and the rendered document are parameters too.
- **Ownership.** No file may point to a folder that does not exist, and the selected folder is a stored one (`Store.FileManager.Owned`). The folder-delete cascade is what keeps this rule, and every command of the store keeps it. A folder can be selected only from the stored folders, as the folder list offers only those.
- **Truthiness.** The source tests optional strings for JavaScript truthiness, so `""` behaves like an absent value.
  - A file whose home folder is `""` cannot be restored.
  - `createPDF` with an empty folder id stops like one with none.
- **Where the code disagrees with the documented behaviour, the model follows the code.**
  - Restoring a file, and deleting one permanently, replace the file list on screen with every stored file, not the selected folder's files.
  - A file dropped while the trash folder is selected is stored as an active file whose home is the trash folder. It therefore shows in no folder view (`Lifecycle.DroppedIntoTrashIsUnlisted`).
  - Deleting a folder does not protect the trash folder. Only the interface hides that button.
  - A PDF ingested from an upload stores its extracted amount without a tax flag. The folder total therefore counts it with tax added (`Lifecycle.IngestedInvoiceAmount`).
  - A form opened to edit an existing invoice takes over its text fields but not its tax choice. The tax choice starts as "included", and the total starts at 0.
  - The invoice table's grand total depends on the browser locale. It is recovered correctly only where digits are grouped with `,` (see `InvoiceTable.ItemRowsTotal` under "Left out").
  - An empty upload is stored, but it cannot be downloaded. Its data URL `data:<mime>;base64,` has an empty payload, which the download handler reports as missing data (`Lifecycle.EmptyUploadCannotDownload`). The ingest-then-download round trip holds only for non-empty content.

## Model

| member | source | states |
|---|---|---|
| Lifecycle.InView | src/App.tsx:172-182 | definition of a folder's query; its properties are Lifecycle.ViewsPartition and Lifecycle.TrashMovesBetweenViews |
| Lifecycle.Trashed | src/App.tsx:483-487 | definition of the trash update; its properties are Lifecycle.TrashOnlyTouchesFlags, Lifecycle.TrashRestoreRoundTrip and Lifecycle.TrashAndRestoreIdempotent |
| Lifecycle.Restored | src/App.tsx:506-510 | definition of the restore update; its properties are stated by the same three lemmas |
| Lifecycle.TrashOnlyTouchesFlags | src/App.tsx:483-487 | trashing changes only `deleted`, `deletedAt` and `isHidden`; it keeps the home folder; trashing and restoring both leave the flag pair in agreement, and a restored file is active |
| Lifecycle.TrashRestoreRoundTrip | src/App.tsx:477-513 | restoring a trashed active file gives back exactly the file it was |
| Lifecycle.TrashAndRestoreIdempotent | src/App.tsx:477-513 | trashing twice is trashing once at the later time; restoring an active file changes nothing |
| Lifecycle.ViewsPartition | src/App.tsx:172-182 | a file with agreeing flags shows in exactly one of its home view and the trash view, and in no other folder's view |
| Lifecycle.TrashMovesBetweenViews | src/App.tsx:172-182 | trashing moves a file from its home folder's view to the trash view; restoring moves it back |
| Lifecycle.AllowListMatchesDropzone | src/App.tsx:202-211 | the ingest allow-list and the drop zone accept the same eight MIME types |
| Lifecycle.OnlyPdfMimeIsPdf | src/App.tsx:202-211 | an allowed type becomes a PDF exactly when it is `application/pdf`; `text/csv` becomes a spreadsheet |
| Lifecycle.AllowedHaveNoSeparators | src/App.tsx:202-211 | no allowed MIME type contains `,`, `:` or `;`, so each one survives the download header parse |
| Lifecycle.ExtractedInvoice | src/App.tsx:251-268 | definition of the invoice data an ingested PDF carries; its effect on the folder total is Lifecycle.IngestedInvoiceAmount |
| Lifecycle.IngestRecord | src/App.tsx:328-357 | no record exactly for a type outside the allow-list; otherwise an active record with agreeing flags, the fresh id, the drop folder as home and the listed kind, carrying invoice data exactly when it is a PDF |
| Lifecycle.IngestedIsListed | src/App.tsx:341-349 | an upload dropped on a non-trash folder shows in that folder's view and not in the trash view |
| Lifecycle.DroppedIntoTrashIsUnlisted | src/App.tsx:389-392 | an upload dropped while the trash is selected shows in no folder view |
| Lifecycle.IngestedInvoiceAmount | src/App.tsx:351-356 | an ingested PDF counts toward the folder total as its extracted amount with tax added, or 0 when extraction failed |
| Lifecycle.IngestThenDownload | src/App.tsx:411-424 | an ingested file with non-empty content downloads with the MIME type and content it was read with |
| Lifecycle.EmptyUploadCannotDownload | src/App.tsx:416-421 | an empty upload of an allowed type is stored, but its download is refused as missing data |
| Lifecycle.CascadeDelete | src/App.tsx:454-457 | deleting a folder removes every file whose home is that folder, trashed or not, and keeps every other file unchanged |
| Lifecycle.CascadeEmptiesView | src/App.tsx:454-457 | after the cascade, no remaining file shows in the deleted folder's view |
| Lifecycle.WithoutFile | src/App.tsx:490 | the list on screen after trashing holds exactly the files with another id |
| Lifecycle.WithoutFileAppend | src/App.tsx:490 | dropping a file from the list keeps the other files in their order |
| DataUri.Head | src/App.tsx:418-424 | `split(c)[0]`: the result holds no `c` and is a prefix of the text; DataUri.SplitJoined, DataUri.SplitNone and DataUri.HeadAppend pin down its value |
| DataUri.Second | src/App.tsx:418-424 | `split(c)[1]`: when it exists, the result holds no `c`; its value is pinned down through DataUri.SplitJoined and DataUri.SplitNone |
| DataUri.ParseDataUri | src/App.tsx:411-424 | text not starting with `data:` is an invalid format; a result has a non-empty payload without `,` and a MIME type without `,` or `;`; a `data:` text without a payload is reported as missing data |
| DataUri.ParseSucceedsExactly | src/App.tsx:411-419 | a `data:` text parses exactly when its second comma-separated field exists and is non-empty, and that field is the payload |
| DataUri.DownloadRoundTrip | src/App.tsx:411-424 | parsing `data:<mime>;base64,<payload>` returns that MIME type and payload, for a plain MIME type and a non-empty payload without `,` |
| DataUri.ParamsRoundTrip | src/App.tsx:411-424 | parsing `data:<mime>;<params>,<payload>` returns that MIME type and payload, for a plain MIME type, any parameters without `,` and a non-empty payload without `,` |
| DataUri.EmptyPayloadMissing | src/App.tsx:416-421 | the data URL of empty content, `data:<mime>;base64,`, is reported as missing data |
| DataUri.RejectsPlainText | src/App.tsx:413-415 | an example of the invalid-format case: `hello,world` is refused; the general rule is ParseDataUri's first clause |
| FolderOrder.LocaleCompare | src/App.tsx:589 | definition of the name comparison (lexicographic order in place of locale collation); its properties are FolderOrder.LocaleCompareAntisymmetric |
| FolderOrder.LocaleCompareAntisymmetric | src/App.tsx:590 | the name comparison flips sign when its arguments swap, and is zero only for equal names |
| FolderOrder.CompareFolders | src/App.tsx:585-591 | definition of the sort comparator; its agreement with the display order is FolderOrder.ComparatorAgrees |
| FolderOrder.ComparatorAgrees | src/App.tsx:586-590 | the comparator puts one folder no later than another exactly when the display order does, whenever at most one of them is the trash |
| FolderOrder.SortFolders | src/App.tsx:585-591 | the sorted list holds the same folders as the input |
| FolderOrder.SortFoldersSorted | src/App.tsx:585-591 | the sorted list is ordered by the display order |
| FolderOrder.SortedFoldersTrashLast | src/App.tsx:585-591 | the displayed folders are the stored ones; the trash never comes before another folder; the other folders are ordered by name |
| FolderOrder.SortExample | src/App.tsx:585-591 | B, A and the trash are displayed as A, B, trash |
| Totals.TaxInclusive | src/App.tsx:606-608 | `Math.round(t * 1.1)` is the integer nearest to 11t/10, with halves rounded up |
| Totals.FileAmount | src/App.tsx:602-611 | a file that is not a PDF with invoice data adds nothing; a missing or non-numeric amount adds 0; a tax-included amount adds itself; any other amount adds the integer nearest to 11/10 of it |
| Totals.FolderTotal | src/App.tsx:601-612 | definition of the folder total as the reduce over the files; its properties are Totals.FolderTotalAppend, Totals.FolderTotalPermutation and Totals.OnlyInvoicesCount |
| Totals.FolderTotalAppend | src/App.tsx:601-612 | the total of two lists of files together is the sum of their totals |
| Totals.FolderTotalPermutation | src/App.tsx:601-612 | the total does not depend on the order the files are listed in |
| Totals.IsInvoicePdf | src/App.tsx:603 | definition of the invoice filter's test: a PDF that carries invoice data; its properties are Totals.InvoicePdfs and Totals.FileAmount |
| Totals.InvoicePdfs | src/App.tsx:603 | the invoice filter keeps exactly the PDFs that carry invoice data |
| Totals.OnlyInvoicesCount | src/App.tsx:601-612 | the folder total is the total of its invoice PDFs alone |
| Totals.TotalsExample | src/App.tsx:601-612 | an invoice of 2500 yen counts 2500 with tax included, 2750 without, and both together 5250 |
| Store.Collect | src/App.tsx:172-182 | a table query returns exactly the stored records that satisfy the filter, each once |
| Store.HomesStored | src/App.tsx:451-466 | definition of the ownership rule: every file with a home folder has it stored; Store.FileManager.Owned adds that the selection is stored, and every FileManager method keeps it |
| Store.CascadeKeepsHomes | src/App.tsx:451-466 | the folder-delete cascade keeps the ownership rule: without the folder's files, the folder can be removed |
| Store.FileManager.constructor | src/App.tsx:139-142 | the store opens with its tables as stored and nothing shown or selected |
| Store.FileManager.SelectFolder | src/App.tsx:169-187 | selecting another folder shows exactly the stored files in that folder's view, each once, and changes no table; only a stored folder can be selected (the folder list offers only those); the ownership rule (Owned) is kept |
| Store.FileManager.InitializeData | src/App.tsx:139-162 | an empty folder table gets exactly the trash folder, which is then selected; a non-empty one is kept and one of its folders is selected; the files are kept and the selected folder's view is shown; the ownership rule (Owned) is kept |
| Store.FileManager.AddFolder | src/App.tsx:189-199 | nothing changes for a cancelled or empty name or a taken id; otherwise exactly one non-trash folder is added; the ownership rule (Owned) is kept |
| Store.FileManager.EditFolderName | src/App.tsx:440-449 | nothing changes for a missing folder or a cancelled or empty name; otherwise only that folder's name changes; the ownership rule (Owned) is kept |
| Store.FileManager.DeleteFolder | src/App.tsx:451-466 | when not confirmed nothing changes; when confirmed the file table becomes the cascade, the folder is gone, the list on screen is empty, and a selection of that folder is cleared; the flag pairs stay in agreement; the ownership rule (Owned) is kept |
| Store.FileManager.MoveToTrash | src/App.tsx:477-492 | when confirmed and the file exists, only that record is trashed and only it leaves the list on screen; otherwise nothing changes; the ownership rule (Owned) is kept |
| Store.FileManager.PermanentlyDeleteFile | src/App.tsx:494-499 | when confirmed, only that record is removed and the list on screen becomes every remaining file, each once; otherwise nothing changes; the ownership rule (Owned) is kept |
| Store.FileManager.RestoreFile | src/App.tsx:501-513 | nothing changes for a missing file or one without a home folder; otherwise only that record is restored and every file is shown, each once; the ownership rule (Owned) is kept |
| Store.FileManager.AddNewFile | src/App.tsx:724-729 | a record with a fresh id is stored and appended to the list on screen; with a taken id nothing changes; the ownership rule (Owned) is kept when the record's home is stored |
| Store.FileManager.ProcessFile | src/App.tsx:328-363 | an upload is stored exactly when its type is allowed and its id is fresh, as the ingest record, appended to the list on screen; the ownership rule (Owned) is kept when the drop folder is stored |
| Store.DropEffect | src/App.tsx:328-384 | definition of a drop as the ingest of each upload in turn; its properties are the three lemmas below and Store.FileManager.OnDrop |
| Store.DropAppendsNewRecords | src/App.tsx:356-360 | a drop keeps every stored record; the records it appends to the list on screen are exactly the records it adds to the table, each once |
| Store.DropRecordsFromUploads | src/App.tsx:328-357 | every record a drop adds is the ingest record of one of its uploads, under that upload's id |
| Store.DropStoresAllowed | src/App.tsx:328-360 | every allowed upload whose id was not stored before the drop has its id stored after it |
| Store.DirectoryDrop | src/App.tsx:366 | definition of the directory test: the first dropped item has an empty type; its effect is stated by Store.FileManager.OnDrop |
| Store.FileManager.IngestInTurn | src/App.tsx:379-384 | the ordinary path of a drop: the table and the list on screen become DropEffect of the old ones, in upload order; no folder and no selection changes; the flag pairs and the ownership rule (when the target folder is stored) are kept |
| Store.FileManager.OnDrop | src/App.tsx:365-392 | with no folder selected, or for a directory drop, nothing changes; otherwise the table and the list on screen are the old list followed by the records of DropEffect, in upload order; existing records are untouched; every new record is the ingest record of one upload for the selected folder; every allowed upload whose id was not stored before has its id stored; the ownership rule (Owned) is kept |
| Store.TrashRoundTripScenario | src/App.tsx:477-513 | on a fresh store, a PDF ingested into a new selected folder shows there; trashed, it leaves that folder's list and shows in the trash; restored, it is back in the folder's list and gone from the trash |
| Items.NewItem | src/components/files/InvoiceCreator.tsx:128-131 | a new item has the next product number, an empty name, quantity 1, unit price 0 and the form's unit |
| Items.ApplyEdit | src/components/files/InvoiceCreator.tsx:123 | definition of the one-cell edit; its properties are Items.ChangeItems, Items.ChangeOnlyItem and Items.TextEditKeepsTotal |
| Items.ChangeItems | src/components/files/InvoiceCreator.tsx:120-126 | an edit keeps the length, applies the edit to every item with the id, and leaves every other item as it was |
| Items.RemoveItems | src/components/files/InvoiceCreator.tsx:133-135 | removal never lengthens the list (which items stay, and in what order, is stated by the two lemmas below) |
| Items.RemoveItemsMembers | src/components/files/InvoiceCreator.tsx:133-135 | removal keeps exactly the items with another id |
| Items.RemoveItemsAppend | src/components/files/InvoiceCreator.tsx:133-135 | removal keeps the remaining items in their order |
| Items.RemoveAbsentId | src/components/files/InvoiceCreator.tsx:133-135 | removing an id that no item carries changes nothing |
| Items.RemoveOnlyItem | src/components/files/InvoiceCreator.tsx:133-138 | removing the single item with an id leaves the items before and after it, and lowers the total by its line |
| Items.ChangeOnlyItem | src/components/files/InvoiceCreator.tsx:120-138 | editing the single item with an id replaces that item alone, and changes the total by the change of its line; a name or unit edit keeps the total |
| Items.TextEditKeepsTotal | src/components/files/InvoiceCreator.tsx:120-138 | a name or unit edit never changes the total |
| Items.ItemsTotal | src/components/files/InvoiceCreator.tsx:138 | definition of the item total as the reduce over the lines; its properties are Items.ItemsTotalAppend, Items.RemoveOnlyItem, Items.ChangeOnlyItem and Items.AddItemKeepsTotal |
| Items.ItemsTotalAppend | src/components/files/InvoiceCreator.tsx:138 | the item total of two lists together is the sum of their totals |
| Items.AddItemKeepsTotal | src/components/files/InvoiceCreator.tsx:128-138 | adding an item keeps the total |
| Items.ItemsTotalExample | src/components/files/InvoiceCreator.tsx:138 | two items at 1000 yen and one at 500 yen total 2500 |
| InvoiceTable.AmountDue | src/components/files/InvoiceCreator.tsx:245-257 | the amount due is the form total when tax is included, and otherwise that total with tax added, rounded to the nearest yen |
| InvoiceTable.WithTaxFloor | src/components/files/InvoiceCreator.tsx:320-329 | a subtotal with tax added, rounded down, is the largest whole number not above 11/10 of it |
| InvoiceTable.CeilEleventh | src/components/files/InvoiceCreator.tsx:342 | the tax row is the least whole number not below an eleventh of the total |
| InvoiceTable.RowSubtotal | src/components/files/InvoiceCreator.tsx:311-329 | a row's subtotal is its line when tax is included, and otherwise its line with tax added, rounded down |
| InvoiceTable.ItemRows | src/components/files/InvoiceCreator.tsx:310-331 | the table has one row per item, in item order |
| InvoiceTable.RowValue | src/components/files/InvoiceCreator.tsx:339-341 | definition of the value the total reduce reads back from a row: its subtotal, or 0 for a blank cell; its properties are InvoiceTable.ItemRowsTotal and InvoiceTable.PaddingAddsNothing |
| InvoiceTable.RowsTotal | src/components/files/InvoiceCreator.tsx:339-341 | definition of the total reduce over the table rows; its properties are InvoiceTable.ItemRowsTotal, InvoiceTable.PaddingAddsNothing and InvoiceTable.BuildTable |
| InvoiceTable.ItemRowsTotal | src/components/files/InvoiceCreator.tsx:339-341 | the reduce over the item rows gives the sum of the items' subtotals |
| InvoiceTable.PaddingAddsNothing | src/components/files/InvoiceCreator.tsx:334-341 | a padding row adds 0 to the table total |
| InvoiceTable.IsTable | src/components/files/InvoiceCreator.tsx:310-346 | definition of the table for the items: item rows in order, padding up to five rows, the tax row `ceil(total / 11)`, then the grand-total row, the total being the sum of the items' subtotals |
| InvoiceTable.IsTableUnique | src/components/files/InvoiceCreator.tsx:310-346 | the items and the tax choice determine the table |
| InvoiceTable.BuildTable | src/components/files/InvoiceCreator.tsx:310-346 | the rows are the table for the items (IsTable): item rows in order, padding up to five rows, the tax row `ceil(total / 11)`, then the grand-total row; the total is the sum of the items' subtotals |
| InvoiceTable.IncludedTableTotal | src/components/files/InvoiceCreator.tsx:315-317 | with tax included, the table's grand total equals the form's total |
| InvoiceTable.ExcludedTableTotal | src/components/files/InvoiceCreator.tsx:318-322 | without tax, the grand total is at most 11/10 of the form total, and below it by less than one yen per item |
| InvoiceTable.ExcludedTotalWithinAmountDue | src/components/files/InvoiceCreator.tsx:253-255 | without tax, the grand total never exceeds the amount due |
| InvoiceTable.ExcludedTotalBelowAmountDue | src/components/files/InvoiceCreator.tsx:253-255 | without tax, the grand total can be below the amount due: two lines of 5 yen give 10 against 11 |
| InvoiceTable.SealFit | src/components/files/InvoiceCreator.tsx:274-295 | definition of the seal size: between 5 and 12; the text fits at it or it is 5; the text fits at no larger size up to 12 |
| InvoiceTable.SealFitUnique | src/components/files/InvoiceCreator.tsx:274-295 | the text widths determine the seal size |
| InvoiceTable.SealFontSize | src/components/files/InvoiceCreator.tsx:274-295 | the size found is the seal size (SealFit): between 5 and 12; the text fits at that size or the size is 5; the text fits at no larger size up to 12 |
| InvoiceTable.InvoiceFileName | src/components/files/InvoiceCreator.tsx:376 | the name is `請求書_`, then the invoice number (or `未設定` when it is empty), then `.pdf` |
| InvoiceTable.InvoiceFileNameInjective | src/components/files/InvoiceCreator.tsx:376 | two invoices share a file name only when their numbers are equal, or one is empty and the other is `未設定` |
| InvoiceTable.PdfRecord | src/components/files/InvoiceCreator.tsx:376-397 | definition of the record a created invoice becomes; its properties are InvoiceTable.PdfRecordListed, InvoiceTable.PdfRecordAmount and InvoiceTable.PdfRecordDownloads |
| InvoiceTable.PdfRecordListed | src/components/files/InvoiceCreator.tsx:379-397 | the created record is an active PDF invoice with agreeing flags; it shows in its folder's view and not in the trash view; it carries the form data with its tax flag set to the form's tax choice |
| InvoiceTable.PdfRecordAmount | src/components/files/InvoiceCreator.tsx:391-396 | the folder total counts a created invoice at its amount due (AmountDue), rounded as the folder total rounds it |
| InvoiceTable.PdfRecordDownloads | src/components/files/InvoiceCreator.tsx:374-385 | a created invoice whose rendered document is `data:application/pdf;<params>,<payload>`, with any parameters without `,`, downloads as `application/pdf` with that payload |
| Creator.SetField | src/components/files/InvoiceCreator.tsx:115-118 | definition of the one-field update; its properties are Creator.SetFieldGet |
| Creator.SetFieldGet | src/components/files/InvoiceCreator.tsx:115-118 | typing into a field sets that field alone; the total and the tax flag are kept; writing a field's own value back changes nothing |
| Creator.OpeningData | src/components/files/InvoiceCreator.tsx:92-113 | the form opens with a total of 0 and otherwise blank fields, or with the edited file's invoice data whose total is replaced by 0 |
| Creator.InvoiceForm.constructor | src/components/files/InvoiceCreator.tsx:92-107 | the form opens with no items, tax included, and the opening data, so the total matches the items |
| Creator.InvoiceForm.RecomputeTotal | src/components/files/InvoiceCreator.tsx:137-140 | the form total becomes the sum of the item lines, and nothing else changes |
| Creator.InvoiceForm.AddItem | src/components/files/InvoiceCreator.tsx:128-131 | exactly one new item is appended, and the form data, total included, is unchanged |
| Creator.InvoiceForm.RemoveItem | src/components/files/InvoiceCreator.tsx:133-135 | the items become the filtered list, and the total follows them |
| Creator.InvoiceForm.HandleItemChange | src/components/files/InvoiceCreator.tsx:120-126 | the items become the edited list, and the total follows them |
| Creator.InvoiceForm.HandleInputChange | src/components/files/InvoiceCreator.tsx:115-118 | only the named field of the form data changes |
| Creator.InvoiceForm.SetTaxIncluded | src/components/files/InvoiceCreator.tsx:431-448 | the tax choice is set, and the items and form data are kept |
| Creator.InvoiceForm.CreatePdf | src/components/files/InvoiceCreator.tsx:142-400 | with no or an empty folder, or when the fonts fail to load, the store is unchanged; otherwise the rows are the table for the items (IsTable), the seal size exists exactly when there is seal text and is then the seal size for its widths (SealFit), the record is built with its name, and it is stored and shown exactly when its id is fresh; the folder id is the selected folder's, and the ownership rule (Owned) of the store is kept |

## Left out

- Sign-in, token storage and the expiry timer: these are browser storage and timer plumbing.
- Google Drive upload, Drive listing, the Picker and the Sheets import: these are network clients.
- Amount extraction from a PDF's text: it is a foreign service call. Its outcome is a parameter, an optional natural number.
- Expanding dropped directories and reading files: these are asynchronous browser APIs. Ingest takes an already-read upload with its data URL.
- Store.FileManager.OnDrop: the uploads are ingested one after another, in upload order. The interleaving of the asynchronous reads, which can store and show them in another order, is not modelled.
- Store.FileManager.OnDrop: when the first dropped item has an empty type, the source takes the directory branch. That branch expands only the first item's directory entry and never ingests the other dropped files, so a typeless first item followed by a PDF leaves the PDF unstored. The model ingests nothing in that branch: the files the first item's entry would expand to are not modelled.
- Base64 decoding and saving the download: these are library calls. Only the header parse is modelled, so a payload that is not valid base64 is not rejected by the model.
- PDF drawing: coordinates, fonts, colours, date formatting and the number formatting of the cells. The table is modelled as values, not as formatted text.
- Floating-point arithmetic in `* 1.1`, `* 0.1` and `/ 11`. The integer formulas above stand for the exact values.
- InvoiceTable.ItemRowsTotal: the grand total re-reads each row's subtotal cell, printed with `toLocaleString()`, by deleting `,` and parsing an integer. This gives the subtotal back only in a browser locale that groups digits with `,` (ja-JP, en-US), which the model assumes. Under de-DE a line of 1100 is printed `1.100` and read back as 1, and under fr-FR `1 100` is read back as 1, so the grand total and the tax row come out wrong there.
- InvoiceTable.AmountDue: the printed amount without tax is `total * 1.1` as a float, shown unrounded. It is modelled rounded to the nearest yen, as the folder total rounds it.
- Unit prices with a fraction: the form reads prices with `parseFloat`. Prices are modelled as whole yen.
- FolderOrder.SortFolders: locale-aware collation is modelled as lexicographic order on characters. The sort is modelled as an insertion sort, whose result agrees with any sort under the same comparator only up to the order of equal names.
- The order in which the store returns records: listings state which records they hold, each once, but not their order.
- Store.FileManager.InitializeData: the source selects the first folder in the store's key order. The model selects the trash folder when it exists, and otherwise some folder.
- The display sort of files by name: presentation only.
- Store.FileManager.SelectFolder: the source refetches only when the selected folder object changes. The method models a change of selection; re-clicking the selected folder is not modelled.
- Record fields that nothing reads: `folderId`, `content` and `createdAt` of a created invoice.
- Creator.InvoiceForm.CreatePdf: the `!invoiceData` guard is not modelled, because the form data always exists. A store failure while adding surfaces as `stored == false`; in the source it is caught and logged. Saving the file to disk and closing the form are not modelled.
- Re-running the editing effect when a different file is passed to a form that is already open: only the form as it opens is modelled.
- The interface guard that hides the delete button for the trash folder, and the React copy of the folder list, which the source refills from the folder table.
