/** The invoice form of src/components/files/InvoiceCreator.tsx as an object:
    its item list, its form data with the derived total, and the tax
    choice; and createPDF, which stores the finished invoice in the file
    store. The effect that recomputes the total after every change of the
    item list is folded into each operation that changes the list, so the
    total always matches the items between user actions. */
module Creator {
  import opened Records
  import opened Items
  import opened InvoiceTable
  import Store

  /** The text fields of the form (src/components/files/InvoiceCreator.tsx:40-79). */
  datatype FormField =
    | InvoiceNumber | Date | DueDate | Client | CompanyName | Subject
    | RegistrationNumber | BankDetails | Notes | Seal

  function GetField(d: InvoiceData, field: FormField): string
  {
    match field
    case InvoiceNumber => d.invoiceNumber
    case Date => d.date
    case DueDate => d.dueDate
    case Client => d.client
    case CompanyName => d.companyName
    case Subject => d.subject
    case RegistrationNumber => d.registrationNumber
    case BankDetails => d.bankDetails
    case Notes => d.notes
    case Seal => d.seal
  }

  /** `{ ...invoiceData, [name]: value }` (src/components/files/InvoiceCreator.tsx:115-118). */
  function SetField(d: InvoiceData, field: FormField, value: string): InvoiceData
  {
    match field
    case InvoiceNumber => d.(invoiceNumber := value)
    case Date => d.(date := value)
    case DueDate => d.(dueDate := value)
    case Client => d.(client := value)
    case CompanyName => d.(companyName := value)
    case Subject => d.(subject := value)
    case RegistrationNumber => d.(registrationNumber := value)
    case BankDetails => d.(bankDetails := value)
    case Notes => d.(notes := value)
    case Seal => d.(seal := value)
  }

  /** Typing into a field sets that field alone: every other field, the
      total and the tax flag are kept, and setting a field to what it holds
      changes nothing. */
  lemma SetFieldGet(d: InvoiceData, field: FormField, value: string, other: FormField)
    ensures GetField(SetField(d, field, value), other) == if other == field then value else GetField(d, other)
    ensures SetField(d, field, value).totalAmount == d.totalAmount
    ensures SetField(d, field, value).isTaxIncluded == d.isTaxIncluded
    ensures SetField(d, field, GetField(d, field)) == d
  {
  }

  /** The form data on opening: blank with a total of 0, or the data of the
      file being edited with its total replaced by 0, since the total effect
      runs after the editing effect on the first render and the item list
      starts empty (src/components/files/InvoiceCreator.tsx:92-113, 137-140). */
  function OpeningData(editing: Option<MyFile>): (r: InvoiceData)
    ensures r.totalAmount == Some(Num(0))
    ensures editing.Some? && editing.value.invoiceData.Some? ==>
              r.(totalAmount := editing.value.invoiceData.value.totalAmount) == editing.value.invoiceData.value
    ensures !(editing.Some? && editing.value.invoiceData.Some?) ==> r.(totalAmount := None) == BlankInvoice
  {
    if editing.Some? && editing.value.invoiceData.Some? then
      editing.value.invoiceData.value.(totalAmount := Some(Num(0)))
    else
      BlankInvoice.(totalAmount := Some(Num(0)))
  }

  /** What a createPDF call came to. */
  datatype PdfOutcome =
    | NoFolderSelected
    | FontLoadFailed
    | Created(record: MyFile, rows: seq<Row>, sealSize: Option<int>, stored: bool)

  class InvoiceForm {
    /** The `items` state. */
    var items: seq<Item>
    /** The `invoiceData` state. */
    var invoiceData: InvoiceData
    /** The tax radio buttons (the `isTaxIncluded` state). */
    var isTaxIncluded: bool
    /** The unit new items get, a property of the form. */
    const unit: string

    /** The form total is the sum of the item lines. */
    predicate Valid()
      reads this
    {
      invoiceData.totalAmount == Some(Num(ItemsTotal(items)))
    }

    /** A form opened with the unit `unit`, for a new invoice or for the
        file `editing`: no items, tax included, the opening data. The
        editing file's tax choice is not taken over. */
    constructor (unit: string, editing: Option<MyFile>)
      ensures Valid()
      ensures this.unit == unit && items == [] && isTaxIncluded
      ensures invoiceData == OpeningData(editing)
    {
      this.unit := unit;
      items := [];
      invoiceData := OpeningData(editing);
      isTaxIncluded := true;
    }

    /** The total effect (src/components/files/InvoiceCreator.tsx:137-140). */
    method RecomputeTotal()
      modifies this
      ensures Valid()
      ensures items == old(items) && isTaxIncluded == old(isTaxIncluded)
      ensures invoiceData == old(invoiceData).(totalAmount := Some(Num(ItemsTotal(items))))
    {
      invoiceData := invoiceData.(totalAmount := Some(Num(ItemsTotal(items))));
    }

    /** addItem, then the total effect: one new item at the end; the total,
        and with it the whole form data, stays as it was
        (src/components/files/InvoiceCreator.tsx:128-131). */
    method AddItem(now: int)
      requires Valid()
      modifies this
      ensures Valid()
      ensures items == old(items) + [NewItem(old(items), now, unit)]
      ensures invoiceData == old(invoiceData) && isTaxIncluded == old(isTaxIncluded)
    {
      AddItemKeepsTotal(items, now, unit);
      items := items + [NewItem(items, now, unit)];
      RecomputeTotal();
    }

    /** removeItem, then the total effect
        (src/components/files/InvoiceCreator.tsx:133-135). */
    method RemoveItem(id: int)
      requires Valid()
      modifies this
      ensures Valid()
      ensures items == RemoveItems(old(items), id)
      ensures invoiceData == old(invoiceData).(totalAmount := Some(Num(ItemsTotal(items))))
      ensures isTaxIncluded == old(isTaxIncluded)
    {
      items := RemoveItems(items, id);
      RecomputeTotal();
    }

    /** handleItemChange, then the total effect
        (src/components/files/InvoiceCreator.tsx:120-126). */
    method HandleItemChange(id: int, e: ItemEdit)
      requires Valid()
      modifies this
      ensures Valid()
      ensures items == ChangeItems(old(items), id, e)
      ensures invoiceData == old(invoiceData).(totalAmount := Some(Num(ItemsTotal(items))))
      ensures isTaxIncluded == old(isTaxIncluded)
    {
      items := ChangeItems(items, id, e);
      RecomputeTotal();
    }

    /** handleInputChange: one text field is set
        (src/components/files/InvoiceCreator.tsx:115-118). */
    method HandleInputChange(field: FormField, value: string)
      requires Valid()
      modifies this
      ensures Valid()
      ensures invoiceData == SetField(old(invoiceData), field, value)
      ensures items == old(items) && isTaxIncluded == old(isTaxIncluded)
    {
      invoiceData := SetField(invoiceData, field, value);
    }

    /** The tax radio buttons (src/components/files/InvoiceCreator.tsx:431-448). */
    method SetTaxIncluded(included: bool)
      requires Valid()
      modifies this
      ensures Valid()
      ensures isTaxIncluded == included
      ensures items == old(items) && invoiceData == old(invoiceData)
    {
      isTaxIncluded := included;
    }

    /** createPDF. With no (or an empty) selected folder nothing happens;
        when the fonts cannot be loaded nothing is stored; otherwise the
        seal size is fitted when there is a seal (SealFit), the table is
        built (IsTable) and the invoice record is handed to the store under
        the fresh id `newId`, which stores it unless the id is taken. `fontsLoaded`
        stands for the two font downloads, `width` for the seal's text
        width at each font size, `dataUri` for the rendered document. The
        folder id is the id of the store's selected folder, as the app passes
        it (src/App.tsx:858-859, src/components/files/InvoiceCreator.tsx:142-400). */
    method CreatePdf(store: Store.FileManager, selectedFolderId: Option<string>, fontsLoaded: bool,
                     newId: string, now: int, dataUri: string, width: int -> real)
      returns (outcome: PdfOutcome)
      requires Valid() && store.Valid()
      requires selectedFolderId == if store.selected.Some? then Some(store.selected.value.id) else None
      modifies store
      ensures store.Valid()
      ensures !Truthy(selectedFolderId) ==> outcome == NoFolderSelected
      ensures Truthy(selectedFolderId) && !fontsLoaded ==> outcome == FontLoadFailed
      ensures outcome.NoFolderSelected? || outcome.FontLoadFailed? ==>
                store.files == old(store.files) && store.shown == old(store.shown)
      ensures Truthy(selectedFolderId) && fontsLoaded ==>
                outcome.Created?
                && outcome.record == PdfRecord(invoiceData, isTaxIncluded, selectedFolderId.value, newId, now, dataUri)
                && outcome.record.name == InvoiceFileName(invoiceData.invoiceNumber)
                && IsTable(items, isTaxIncluded, outcome.rows)
                && (outcome.sealSize.Some? <==> invoiceData.seal != "")
                && (outcome.sealSize.Some? ==> SealFit(width, outcome.sealSize.value))
                && (outcome.stored <==> newId !in old(store.files))
                && store.files == (if outcome.stored then old(store.files)[newId := outcome.record] else old(store.files))
                && store.shown == (if outcome.stored then old(store.shown) + [outcome.record] else old(store.shown))
      ensures store.folders == old(store.folders) && store.selected == old(store.selected)
      ensures old(store.FlagsConsistent()) ==> store.FlagsConsistent()
      ensures old(store.Owned()) ==> store.Owned()
    {
      if !Truthy(selectedFolderId) {
        return NoFolderSelected;
      }
      if !fontsLoaded {
        return FontLoadFailed;
      }
      var sealSize := None;
      if invoiceData.seal != "" {
        var size := SealFontSize(width);
        sealSize := Some(size);
      }
      var rows, total := BuildTable(items, isTaxIncluded);
      var record := PdfRecord(invoiceData, isTaxIncluded, selectedFolderId.value, newId, now, dataUri);
      var stored := store.AddNewFile(record);
      outcome := Created(record, rows, sealSize, stored);
    }
  }
}
