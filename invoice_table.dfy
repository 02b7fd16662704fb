/** What createPDF computes besides the drawing itself
    (src/components/files/InvoiceCreator.tsx:142-400): the amount-due line,
    the rows of the item table with its tax and grand-total rows, the font
    size of the seal, and the file record it hands to the file store.
    Amounts are whole yen: `x * 1.1` rounded by `Math.round` is
    Totals.TaxInclusive, `Math.floor(s + s * 0.1)` is `(11 * s) / 10` and
    `Math.ceil(t / 11)` is `(t + 10) / 11`, all with floor division. */
module InvoiceTable {
  import opened Records
  import opened Items
  import Totals
  import Lifecycle
  import DataUri

  /** The amount-due line: the form total as it is when it includes tax,
      with tax added otherwise (src/components/files/InvoiceCreator.tsx:245-257). */
  function AmountDue(total: int, taxIncluded: bool): (r: int)
    ensures taxIncluded ==> r == total
    ensures !taxIncluded ==> 10 * r <= 11 * total + 5 < 10 * r + 10
  {
    if taxIncluded then total else Totals.TaxInclusive(total)
  }

  /** `Math.floor(s * 1.1)` on whole yen. */
  function WithTaxFloor(s: int): (r: int)
    ensures 10 * r <= 11 * s < 10 * r + 10
  {
    (11 * s) / 10
  }

  /** `Math.ceil(t / 11)` on whole yen. */
  function CeilEleventh(t: int): (r: int)
    ensures 11 * (r - 1) < t <= 11 * r
  {
    (t + 10) / 11
  }

  /** The tax-inclusive subtotal a line shows: its line as it is when the
      form includes tax, with a tenth added and rounded down otherwise
      (src/components/files/InvoiceCreator.tsx:311-322, 329). */
  function RowSubtotal(item: Item, taxIncluded: bool): (r: int)
    ensures taxIncluded ==> r == Line(item)
    ensures !taxIncluded ==> 10 * r <= 11 * Line(item) < 10 * r + 10
  {
    if taxIncluded then Line(item) else WithTaxFloor(Line(item))
  }

  /** A row of the table: one per item, blank padding rows, then the tax row
      and the grand-total row. */
  datatype Row =
    | ItemRow(name: string, quantity: int, unit: string, unitPrice: int, subtotal: int)
    | PaddingRow
    | TaxRow(tax: int)
    | TotalRow(total: int)

  /** The row `items.map(...)` builds for one item. */
  function ItemToRow(item: Item, taxIncluded: bool): Row
  {
    ItemRow(item.productName, item.quantity, item.unit, item.unitPrice, RowSubtotal(item, taxIncluded))
  }

  function ItemRows(items: seq<Item>, taxIncluded: bool): (r: seq<Row>)
    ensures |r| == |items|
    ensures forall i :: 0 <= i < |items| ==> r[i] == ItemToRow(items[i], taxIncluded)
  {
    if items == [] then []
    else ItemRows(items[..|items| - 1], taxIncluded) + [ItemToRow(items[|items| - 1], taxIncluded)]
  }

  /** What the total reduce reads back from a row's subtotal cell: a blank
      cell reads as 0 (src/components/files/InvoiceCreator.tsx:339-341). */
  function RowValue(row: Row): int
  {
    if row.ItemRow? then row.subtotal else 0
  }

  function RowsTotal(rows: seq<Row>): int
  {
    if rows == [] then 0 else RowsTotal(rows[..|rows| - 1]) + RowValue(rows[|rows| - 1])
  }

  /** The sum of the items' shown subtotals, the reference the table is
      checked against. */
  function SubtotalSum(items: seq<Item>, taxIncluded: bool): int
  {
    if items == [] then 0
    else SubtotalSum(items[..|items| - 1], taxIncluded) + RowSubtotal(items[|items| - 1], taxIncluded)
  }

  lemma {:induction false} ItemRowsTotal(items: seq<Item>, taxIncluded: bool)
    ensures RowsTotal(ItemRows(items, taxIncluded)) == SubtotalSum(items, taxIncluded)
  {
    if items != [] {
      var r := ItemRows(items, taxIncluded);
      assert r[..|r| - 1] == ItemRows(items[..|items| - 1], taxIncluded);
      ItemRowsTotal(items[..|items| - 1], taxIncluded);
    }
  }

  /** The minimum number of item and padding rows. */
  const MinBodyRows: nat := 5

  /** The table for `items`: the item rows in item order, blank padding up
      to five rows, the tax row `ceil(total / 11)` and the grand-total row,
      where the total is the sum of the items' shown subtotals
      (src/components/files/InvoiceCreator.tsx:310-346). */
  predicate IsTable(items: seq<Item>, taxIncluded: bool, rows: seq<Row>)
  {
    var total := SubtotalSum(items, taxIncluded);
    |rows| == (if |items| < MinBodyRows then MinBodyRows else |items|) + 2
    && rows[..|items|] == ItemRows(items, taxIncluded)
    && (forall i :: |items| <= i < |rows| - 2 ==> rows[i] == PaddingRow)
    && rows[|rows| - 2].TaxRow? && 11 * (rows[|rows| - 2].tax - 1) < total <= 11 * rows[|rows| - 2].tax
    && rows[|rows| - 1] == TotalRow(total)
  }

  /** The items and the tax choice determine the table. */
  lemma IsTableUnique(items: seq<Item>, taxIncluded: bool, a: seq<Row>, b: seq<Row>)
    requires IsTable(items, taxIncluded, a) && IsTable(items, taxIncluded, b)
    ensures a == b
  {
    forall i | 0 <= i < |a| ensures a[i] == b[i] {
      if i < |items| {
        assert a[i] == a[..|items|][i] && b[i] == b[..|items|][i];
      }
    }
  }

  /** The table createPDF hands to the layout library, and the total its two
      summary rows are computed from (src/components/files/InvoiceCreator.tsx:310-346). */
  method BuildTable(items: seq<Item>, taxIncluded: bool) returns (rows: seq<Row>, total: int)
    ensures IsTable(items, taxIncluded, rows)
    ensures total == SubtotalSum(items, taxIncluded)
  {
    var body := if |items| < MinBodyRows then MinBodyRows else |items|;
    rows := ItemRows(items, taxIncluded);
    ItemRowsTotal(items, taxIncluded);
    while |rows| < MinBodyRows
      invariant |items| <= |rows| <= body
      invariant rows[..|items|] == ItemRows(items, taxIncluded)
      invariant forall i :: |items| <= i < |rows| ==> rows[i] == PaddingRow
      invariant RowsTotal(rows) == SubtotalSum(items, taxIncluded)
      decreases MinBodyRows - |rows|
    {
      PaddingAddsNothing(rows);
      rows := rows + [PaddingRow];
    }
    total := RowsTotal(rows);
    var padded := rows;
    rows := padded + [TaxRow(CeilEleventh(total)), TotalRow(total)];
    assert rows[..|items|] == padded[..|items|];
  }

  lemma PaddingAddsNothing(rows: seq<Row>)
    ensures RowsTotal(rows + [PaddingRow]) == RowsTotal(rows)
    ensures (rows + [PaddingRow])[..|rows|] == rows
  {
    assert (rows + [PaddingRow])[..|rows|] == rows;
  }

  /** With tax included, the table total is the form's total. */
  lemma {:induction false} IncludedTableTotal(items: seq<Item>)
    ensures SubtotalSum(items, true) == ItemsTotal(items)
  {
    if items != [] {
      IncludedTableTotal(items[..|items| - 1]);
    }
  }

  /** With tax excluded, each row rounds down, so the table total is at most
      the exact tax-inclusive total and falls short of it by less than one
      yen per item. */
  lemma {:induction false} ExcludedTableTotal(items: seq<Item>)
    ensures 10 * SubtotalSum(items, false) <= 11 * ItemsTotal(items)
    ensures items != [] ==> 11 * ItemsTotal(items) < 10 * SubtotalSum(items, false) + 10 * |items|
  {
    if items != [] {
      ExcludedTableTotal(items[..|items| - 1]);
    }
  }

  /** The grand total of a table built without tax never exceeds the amount
      due printed above it, which is also what the folder total counts for
      the record. */
  lemma ExcludedTotalWithinAmountDue(items: seq<Item>)
    ensures SubtotalSum(items, false) <= AmountDue(ItemsTotal(items), false)
  {
    ExcludedTableTotal(items);
  }

  /** The two can differ: two lines of 5 yen without tax show 5 yen each
      in the table, a grand total of 10, under an amount due of 11. */
  lemma ExcludedTotalBelowAmountDue()
    ensures SubtotalSum([Item(1, 1, "A", 1, 5, ""), Item(2, 2, "B", 1, 5, "")], false) == 10
    ensures AmountDue(ItemsTotal([Item(1, 1, "A", 1, 5, ""), Item(2, 2, "B", 1, 5, "")]), false) == 11
  {
    var a, b := Item(1, 1, "A", 1, 5, ""), Item(2, 2, "B", 1, 5, "");
    assert [a, b][..1] == [a] && [a][..0] == [];
  }

  /** The seal's starting font size, the smallest it is shrunk to, and the
      widest text that fits inside the seal circle: its diameter, twice the
      radius of 10, less 4 (src/components/files/InvoiceCreator.tsx:274-291). */
  const SealStartSize: int := 12
  const SealMinSize: int := 5
  const SealRadius: int := 10
  const SealTextLimit: real := (2 * SealRadius - 4) as real

  /** The seal size for a text whose width at each size `width` gives: a
      size from 5 to 12 at which the text fits, or 5 when it fits nowhere,
      such that the text fits at no larger size up to 12. */
  predicate SealFit(width: int -> real, size: int)
  {
    SealMinSize <= size <= SealStartSize
    && (width(size) <= SealTextLimit || size == SealMinSize)
    && forall s :: size < s <= SealStartSize ==> width(s) > SealTextLimit
  }

  /** The text widths determine the seal size. */
  lemma SealFitUnique(width: int -> real, a: int, b: int)
    requires SealFit(width, a) && SealFit(width, b)
    ensures a == b
  {
  }

  /** The seal loop: from size 12 the font is shrunk one step at a time
      while the seal text is wider than the limit, but not below 5. The size
      found is the largest one from 12 down whose text fits, or 5 when none
      fits (src/components/files/InvoiceCreator.tsx:274-295). */
  method SealFontSize(width: int -> real) returns (size: int)
    ensures SealFit(width, size)
  {
    size := SealStartSize;
    var textWidth := width(size);
    while textWidth > SealTextLimit && size > SealMinSize
      invariant SealMinSize <= size <= SealStartSize
      invariant textWidth == width(size)
      invariant forall s :: size < s <= SealStartSize ==> width(s) > SealTextLimit
      decreases size
    {
      size := size - 1;
      textWidth := width(size);
    }
  }

  const FileNamePrefix: string := "請求書_"
  const FileNameSuffix: string := ".pdf"
  const Unset: string := "未設定"

  /** `請求書_${invoiceNumber || '未設定'}.pdf`
      (src/components/files/InvoiceCreator.tsx:376). */
  function InvoiceFileName(invoiceNumber: string): (r: string)
    ensures |r| >= |FileNamePrefix| + |FileNameSuffix|
    ensures r[..|FileNamePrefix|] == FileNamePrefix && r[|r| - |FileNameSuffix|..] == FileNameSuffix
    ensures r[|FileNamePrefix|..|r| - |FileNameSuffix|] == if invoiceNumber == "" then Unset else invoiceNumber
  {
    var middle := if invoiceNumber == "" then Unset else invoiceNumber;
    var r := FileNamePrefix + middle + FileNameSuffix;
    assert r[..|FileNamePrefix|] == FileNamePrefix;
    assert r[|r| - |FileNameSuffix|..] == FileNameSuffix;
    assert r[|FileNamePrefix|..|r| - |FileNameSuffix|] == middle;
    r
  }

  /** Two invoices get the same file name only when they have the same
      number, or when one has none and the other is numbered "未設定". */
  lemma InvoiceFileNameInjective(a: string, b: string)
    requires InvoiceFileName(a) == InvoiceFileName(b)
    ensures a == b || (a == "" && b == Unset) || (a == Unset && b == "")
  {
  }

  /** The record createPDF stores for the form `form` with the tax choice
      `taxIncluded`, in folder `folderId`, under the fresh id `id`
      (src/components/files/InvoiceCreator.tsx:376-397). `lastModified` is
      the clock reading `now`. */
  function PdfRecord(form: InvoiceData, taxIncluded: bool, folderId: string, id: string, now: int, dataUri: string): MyFile
  {
    MyFile(id, InvoiceFileName(form.invoiceNumber), Pdf, now, dataUri, 0, Some(folderId), None, false,
      Some(form.(isTaxIncluded := taxIncluded)))
  }

  /** The record is an active PDF invoice of its folder: it shows in that
      folder's view and not in the trash, and it carries the form data with
      the tax choice. */
  lemma PdfRecordListed(form: InvoiceData, taxIncluded: bool, home: Folder, trash: Folder, id: string, now: int, dataUri: string)
    requires !home.isTrash && trash.isTrash
    ensures FlagsAgree(PdfRecord(form, taxIncluded, home.id, id, now, dataUri))
    ensures Lifecycle.Active(PdfRecord(form, taxIncluded, home.id, id, now, dataUri))
    ensures Lifecycle.InView(home, PdfRecord(form, taxIncluded, home.id, id, now, dataUri))
    ensures !Lifecycle.InView(trash, PdfRecord(form, taxIncluded, home.id, id, now, dataUri))
    ensures Totals.IsInvoicePdf(PdfRecord(form, taxIncluded, home.id, id, now, dataUri))
    ensures PdfRecord(form, taxIncluded, home.id, id, now, dataUri).invoiceData == Some(form.(isTaxIncluded := taxIncluded))
  {
  }

  /** The folder total counts a created invoice at the amount due printed
      on it. */
  lemma PdfRecordAmount(form: InvoiceData, taxIncluded: bool, folderId: string, id: string, now: int, dataUri: string, total: int)
    requires form.totalAmount == Some(Num(total))
    ensures Totals.FileAmount(PdfRecord(form, taxIncluded, folderId, id, now, dataUri)) == AmountDue(total, taxIncluded)
  {
  }

  /** A created invoice downloads as a PDF with the content it was saved
      with, whatever comma-free parameters the renderer puts before the
      payload. */
  lemma PdfRecordDownloads(form: InvoiceData, taxIncluded: bool, folderId: string, id: string, now: int,
                           params: string, base64: string)
    requires base64 != "" && ',' !in base64 && ',' !in params
    ensures DataUri.ParseDataUri(PdfRecord(form, taxIncluded, folderId, id, now, DataUri.DataUrlWith(Lifecycle.PdfMime, params, base64)).data)
         == Ok(DataUri.Payload(Lifecycle.PdfMime, base64))
  {
    Lifecycle.LegacyTypesPlain();
    DataUri.ParamsRoundTrip(Lifecycle.PdfMime, params, base64);
  }
}
