/** The records the application keeps in its browser-local store (src/db.ts),
    together with the invoice form data that a PDF file carries as metadata.
    Every amount is a whole number of yen. */
module Records {

  datatype Option<+T> = None | Some(value: T)

  datatype Result<+T, +E> = Ok(value: T) | Err(error: E)

  /** The four document kinds a stored file can have. */
  datatype FileType = Excel | PowerPoint | Word | Pdf

  /** A stored `totalAmount`: a number, or a value that is not a number
      (the aggregator checks for NaN before adding). */
  datatype Amount = Num(yen: int) | NaN

  /** The invoice form data. A text field the user never filled in is "";
      the source tests each of them only for truthiness, for which an absent
      field and "" behave alike. `isTaxIncluded` is false when absent, for
      the same reason. */
  datatype InvoiceData = InvoiceData(
    invoiceNumber: string,
    date: string,
    dueDate: string,
    client: string,
    companyName: string,
    subject: string,
    registrationNumber: string,
    bankDetails: string,
    notes: string,
    seal: string,
    totalAmount: Option<Amount>,
    isTaxIncluded: bool)

  /** The invoice data with no field set, as ingest stores it when the amount
      extraction fails, and as the form starts. */
  const BlankInvoice: InvoiceData :=
    InvoiceData("", "", "", "", "", "", "", "", "", "", None, false)

  /** A stored file. `deleted` is 0 or 1, `data` is a data URL, timestamps are
      milliseconds. `invoiceData` stands for `metadata?.invoiceData`. */
  datatype MyFile = MyFile(
    id: string,
    name: string,
    fileType: FileType,
    lastModified: int,
    data: string,
    deleted: int,
    originalFolderId: Option<string>,
    deletedAt: Option<int>,
    isHidden: bool,
    invoiceData: Option<InvoiceData>)

  /** A folder; `isTrash` is false when the source leaves it absent. */
  datatype Folder = Folder(id: string, name: string, isTrash: bool)

  /** The id and name the trash folder is created with. */
  const TrashId: string := "trash"
  const TrashName: string := "ゴミ箱"

  /** The pair of lifecycle flags agrees: a file is in the trash exactly when
      it is hidden, and `deleted` is one of its two values. */
  predicate FlagsAgree(f: MyFile)
  {
    (f.deleted == 0 || f.deleted == 1) && (f.deleted == 1 <==> f.isHidden)
  }

  /** A JavaScript truthiness test on an optional string. */
  predicate Truthy(s: Option<string>)
  {
    s.Some? && s.value != ""
  }
}
