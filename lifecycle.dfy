/** The record-level rules of the folder/file lifecycle in src/App.tsx: which
    files a folder shows, what moving to the trash and restoring do to one
    record, the upload allow-list and the record an upload becomes, and the
    cascade a folder delete applies to the file table. The trash is a view
    over `deleted == 1`, not a place files move to. */
module Lifecycle {
  import opened Records
  import DataUri
  import Totals

  /** The query a folder's file list is fetched with: the trash folder lists
      every trashed file, any other folder its own files that are not
      trashed (src/App.tsx:172-182). */
  predicate InView(folder: Folder, f: MyFile)
  {
    if folder.isTrash then f.deleted == 1
    else f.originalFolderId == Some(folder.id) && f.deleted == 0
  }

  /** The update moveToTrash applies (src/App.tsx:483-487). */
  function Trashed(f: MyFile, now: int): MyFile
  {
    f.(deleted := 1, deletedAt := Some(now), isHidden := true)
  }

  /** The update restoreFile applies (src/App.tsx:506-510). */
  function Restored(f: MyFile): MyFile
  {
    f.(deleted := 0, deletedAt := None, isHidden := false)
  }

  /** restoreFile goes ahead only for a file with a (non-empty) home folder
      (src/App.tsx:503). */
  predicate CanRestore(f: MyFile)
  {
    Truthy(f.originalFolderId)
  }

  /** An active file: not trashed, not hidden, no deletion time. */
  predicate Active(f: MyFile)
  {
    f.deleted == 0 && !f.isHidden && f.deletedAt.None?
  }

  /** Trashing changes the three lifecycle fields and nothing else: the home
      folder in particular is kept, so that restore knows where the file
      belongs. Both updates leave the flag pair in agreement. */
  lemma TrashOnlyTouchesFlags(f: MyFile, now: int)
    ensures Trashed(f, now).(deleted := f.deleted, deletedAt := f.deletedAt, isHidden := f.isHidden) == f
    ensures Trashed(f, now).originalFolderId == f.originalFolderId
    ensures FlagsAgree(Trashed(f, now)) && Trashed(f, now).deleted == 1
    ensures FlagsAgree(Restored(f)) && Active(Restored(f))
  {
  }

  /** Restoring undoes trashing: an active file that is trashed and then
      restored is the file it was. */
  lemma TrashRestoreRoundTrip(f: MyFile, now: int)
    requires Active(f)
    ensures Restored(Trashed(f, now)) == f
  {
  }

  /** Trashing twice is trashing once (at the later time); restoring an
      active file changes nothing. */
  lemma TrashAndRestoreIdempotent(f: MyFile, t1: int, t2: int)
    ensures Trashed(Trashed(f, t1), t2) == Trashed(f, t2)
    ensures Active(f) ==> Restored(f) == f
  {
  }

  /** A file with agreeing flags whose home is the non-trash folder `home`
      shows in exactly one of the home view and the trash view, and in no
      other non-trash folder. */
  lemma ViewsPartition(f: MyFile, home: Folder, trash: Folder, other: Folder)
    requires FlagsAgree(f) && f.originalFolderId == Some(home.id)
    requires !home.isTrash && trash.isTrash && !other.isTrash && other.id != home.id
    ensures InView(home, f) != InView(trash, f)
    ensures !InView(other, f)
  {
  }

  /** Trashing moves a file out of its home folder's view into the trash
      view; restoring moves it back. */
  lemma TrashMovesBetweenViews(f: MyFile, now: int, home: Folder, trash: Folder)
    requires f.originalFolderId == Some(home.id) && !home.isTrash && trash.isTrash
    ensures InView(trash, Trashed(f, now)) && !InView(home, Trashed(f, now))
    ensures InView(home, Restored(Trashed(f, now))) && !InView(trash, Restored(Trashed(f, now)))
  {
  }

  /** The MIME types of the allow-list, spelled out of their common parts. */
  const AppPrefix: string := "application/"
  const OoxmlPrefix: string := "vnd.openxmlformats-officedocument."
  const XlsMime: string := AppPrefix + "vnd.ms-excel"
  const XlsxMime: string := AppPrefix + OoxmlPrefix + "spreadsheetml.sheet"
  const PptMime: string := AppPrefix + "vnd.ms-powerpoint"
  const PptxMime: string := AppPrefix + OoxmlPrefix + "presentationml.presentation"
  const DocMime: string := AppPrefix + "msword"
  const DocxMime: string := AppPrefix + OoxmlPrefix + "wordprocessingml.document"
  const PdfMime: string := AppPrefix + "pdf"
  const CsvMime: string := "text/csv"

  /** The MIME-type allow-list of uploads and the document kind each type
      becomes (src/App.tsx:202-211). */
  const AllowedTypes: map<string, FileType> := map[
    XlsMime := Excel, XlsxMime := Excel,
    PptMime := PowerPoint, PptxMime := PowerPoint,
    DocMime := Word, DocxMime := Word,
    PdfMime := Pdf,
    CsvMime := Excel
  ]

  /** The MIME types the drop zone itself accepts (src/App.tsx:394-403). */
  const DropzoneAccept: set<string> :=
    {XlsMime, XlsxMime, PptMime, PptxMime, DocMime, DocxMime, PdfMime, CsvMime}

  predicate NoSeparators(m: string)
  {
    ',' !in m && ':' !in m && ';' !in m
  }

  /** The drop zone and the ingest allow-list accept the same types. */
  lemma AllowListMatchesDropzone()
    ensures AllowedTypes.Keys == DropzoneAccept
  {
  }

  /** Only the PDF type becomes a PDF, and CSV is taken as a spreadsheet. */
  lemma OnlyPdfMimeIsPdf()
    ensures forall m :: m in AllowedTypes ==> (AllowedTypes[m] == Pdf <==> m == PdfMime)
    ensures AllowedTypes[CsvMime] == Excel
  {
    assert XlsMime[12] == 'v' && XlsxMime[12] == 'v' && PptMime[12] == 'v' && PptxMime[12] == 'v';
    assert DocMime[12] == 'm' && DocxMime[12] == 'v' && PdfMime[12] == 'p' && CsvMime[0] == 't';
  }

  lemma NoSeparatorsConcat(a: string, b: string)
    requires NoSeparators(a) && NoSeparators(b)
    ensures NoSeparators(a + b)
  {
  }

  lemma OoxmlPrefixPlain()
    ensures NoSeparators(AppPrefix + OoxmlPrefix)
  {
    NoSeparatorsConcat(AppPrefix, OoxmlPrefix);
  }

  lemma OoxmlTypesPlain()
    ensures NoSeparators(XlsxMime) && NoSeparators(PptxMime) && NoSeparators(DocxMime)
  {
    OoxmlPrefixPlain();
    assert NoSeparators("spreadsheetml.sheet");
    NoSeparatorsConcat(AppPrefix + OoxmlPrefix, "spreadsheetml.sheet");
    assert NoSeparators("presentationml.presentation");
    NoSeparatorsConcat(AppPrefix + OoxmlPrefix, "presentationml.presentation");
    assert NoSeparators("wordprocessingml.document");
    NoSeparatorsConcat(AppPrefix + OoxmlPrefix, "wordprocessingml.document");
  }

  lemma LegacyTypesPlain()
    ensures NoSeparators(XlsMime) && NoSeparators(PptMime) && NoSeparators(DocMime)
    ensures NoSeparators(PdfMime) && NoSeparators(CsvMime)
  {
    assert NoSeparators(XlsMime) by { NoSeparatorsConcat(AppPrefix, "vnd.ms-excel"); }
    assert NoSeparators(PptMime) by { NoSeparatorsConcat(AppPrefix, "vnd.ms-powerpoint"); }
    assert NoSeparators(DocMime) by { NoSeparatorsConcat(AppPrefix, "msword"); }
    assert NoSeparators(PdfMime) by { NoSeparatorsConcat(AppPrefix, "pdf"); }
  }

  /** No allowed type holds a data-URL separator. */
  lemma AllowedHaveNoSeparators()
    ensures forall m :: m in AllowedTypes ==> NoSeparators(m)
  {
    OoxmlTypesPlain();
    LegacyTypesPlain();
  }

  /** A file as the browser hands it over once read: its name, MIME type,
      modification time and its content as a data URL. */
  datatype Upload = Upload(name: string, mimeType: string, lastModified: int, dataUrl: string)

  /** The invoice data ingest attaches to a PDF: the extracted amount, or no
      field at all when extraction failed (src/App.tsx:251-268). */
  function ExtractedInvoice(extracted: Option<nat>): InvoiceData
  {
    match extracted
    case Some(n) => BlankInvoice.(totalAmount := Some(Num(n)))
    case None => BlankInvoice
  }

  /** The record processFile stores for an upload dropped on `folderId`
      under the fresh id `id`, or None for a type outside the allow-list
      (src/App.tsx:329-357). */
  function IngestRecord(u: Upload, folderId: string, id: string, extracted: Option<nat>): (r: Option<MyFile>)
    ensures r.None? <==> u.mimeType !in AllowedTypes
    ensures r.Some? ==> r.value.id == id && Active(r.value) && FlagsAgree(r.value)
                        && r.value.originalFolderId == Some(folderId)
                        && r.value.fileType == AllowedTypes[u.mimeType]
                        && (r.value.invoiceData.Some? <==> r.value.fileType == Pdf)
  {
    if u.mimeType !in AllowedTypes then None
    else
      var kind := AllowedTypes[u.mimeType];
      Some(MyFile(id, u.name, kind, u.lastModified, u.dataUrl, 0, Some(folderId), None, false,
        if u.mimeType == PdfMime then Some(ExtractedInvoice(extracted)) else None))
  }

  /** An uploaded file shows in the (non-trash) folder it was dropped on and
      not in the trash. */
  lemma IngestedIsListed(u: Upload, home: Folder, trash: Folder, id: string, extracted: Option<nat>)
    requires u.mimeType in AllowedTypes && !home.isTrash && trash.isTrash
    ensures InView(home, IngestRecord(u, home.id, id, extracted).value)
    ensures !InView(trash, IngestRecord(u, home.id, id, extracted).value)
  {
  }

  /** A file dropped while the trash folder is selected gets the trash as its
      home but is not trashed, so it shows in no folder at all. */
  lemma DroppedIntoTrashIsUnlisted(u: Upload, trash: Folder, any: Folder, id: string, extracted: Option<nat>)
    requires u.mimeType in AllowedTypes && trash.isTrash
    requires any.isTrash || any.id != trash.id
    ensures !InView(any, IngestRecord(u, trash.id, id, extracted).value)
  {
  }

  /** An ingested PDF's extracted amount is stored without the tax flag, so
      the folder total counts it with tax added. */
  lemma IngestedInvoiceAmount(u: Upload, folderId: string, id: string, n: nat)
    requires u.mimeType == PdfMime
    ensures Totals.FileAmount(IngestRecord(u, folderId, id, Some(n)).value) == Totals.TaxInclusive(n)
    ensures Totals.FileAmount(IngestRecord(u, folderId, id, None).value) == 0
  {
  }

  /** A file ingested from an allowed type downloads with that type and the
      payload it was read with. */
  lemma IngestThenDownload(u: Upload, folderId: string, id: string, extracted: Option<nat>, base64: string)
    requires u.mimeType in AllowedTypes
    requires u.dataUrl == DataUri.DataUrl(u.mimeType, base64) && base64 != "" && ',' !in base64
    ensures DataUri.ParseDataUri(IngestRecord(u, folderId, id, extracted).value.data)
         == Ok(DataUri.Payload(u.mimeType, base64))
  {
    AllowedHaveNoSeparators();
    DataUri.DownloadRoundTrip(u.mimeType, base64);
  }

  /** An empty upload is stored, but it cannot be downloaded: its data URL
      has an empty payload, which the download handler reports as missing
      data (src/App.tsx:416-419). */
  lemma EmptyUploadCannotDownload(u: Upload, folderId: string, id: string, extracted: Option<nat>)
    requires u.mimeType in AllowedTypes && u.dataUrl == DataUri.DataUrl(u.mimeType, "")
    ensures IngestRecord(u, folderId, id, extracted).Some?
    ensures DataUri.ParseDataUri(IngestRecord(u, folderId, id, extracted).value.data) == Err(DataUri.MissingData)
  {
    AllowedHaveNoSeparators();
    DataUri.EmptyPayloadMissing(u.mimeType);
  }

  /** The file table after deleting folder `folderId`: every file whose home
      is that folder is gone, trashed or not, and every other file is kept
      unchanged (src/App.tsx:454-457). */
  function CascadeDelete(files: map<string, MyFile>, folderId: string): (r: map<string, MyFile>)
    ensures forall k :: k in r ==> k in files && r[k] == files[k] && r[k].originalFolderId != Some(folderId)
    ensures forall k :: k in files && files[k].originalFolderId != Some(folderId) ==> k in r
  {
    map k | k in files && files[k].originalFolderId != Some(folderId) :: files[k]
  }

  /** After the cascade the deleted folder's view is empty. */
  lemma CascadeEmptiesView(files: map<string, MyFile>, folder: Folder)
    requires !folder.isTrash
    ensures forall k :: k in CascadeDelete(files, folder.id) ==> !InView(folder, CascadeDelete(files, folder.id)[k])
  {
  }

  /** The shown list without the file `id` (src/App.tsx:490). */
  function WithoutFile(s: seq<MyFile>, id: string): (r: seq<MyFile>)
    ensures forall f :: f in r <==> f in s && f.id != id
    ensures |r| <= |s|
  {
    if s == [] then []
    else WithoutFile(s[..|s| - 1], id) + (if s[|s| - 1].id == id then [] else [s[|s| - 1]])
  }

  /** Filtering distributes over concatenation, so the files that stay keep
      their order. */
  lemma {:induction false} WithoutFileAppend(a: seq<MyFile>, b: seq<MyFile>, id: string)
    ensures WithoutFile(a + b, id) == WithoutFile(a, id) + WithoutFile(b, id)
    decreases |b|
  {
    if b == [] {
      assert a + b == a;
    } else {
      var b' := b[..|b| - 1];
      assert (a + b)[..|a + b| - 1] == a + b';
      WithoutFileAppend(a, b', id);
    }
  }
}
