/** The invoice total shown for a folder (src/App.tsx:601-613): the sum, over
    the shown files, of each PDF's stored invoice amount, converted to a
    tax-inclusive amount when it was stored without tax.
    `Math.round(t * 1.1)` on whole yen is modelled exactly as the nearest
    integer to 11t/10, halves rounded up, which is what `Math.round` does;
    binary floating-point error in `t * 1.1` is not modelled. */
module Totals {
  import opened Records

  /** `Math.round(t * 1.1)`. */
  function TaxInclusive(t: int): (r: int)
    ensures 10 * r <= 11 * t + 5 < 10 * r + 10
  {
    (11 * t + 5) / 10
  }

  /** The file carries an invoice the aggregator looks at. */
  predicate IsInvoicePdf(f: MyFile)
  {
    f.fileType == Pdf && f.invoiceData.Some?
  }

  /** What one file adds to the folder total: nothing unless it is an invoice
      PDF; a missing amount counts as 0; a tax-included amount as it is,
      any other one converted; an amount that is not a number adds 0. */
  function FileAmount(f: MyFile): (r: int)
    ensures !IsInvoicePdf(f) ==> r == 0
    ensures IsInvoicePdf(f) && f.invoiceData.value.totalAmount in {None, Some(NaN)} ==> r == 0
    ensures IsInvoicePdf(f) && f.invoiceData.value.totalAmount.Some? && f.invoiceData.value.totalAmount.value.Num? ==>
              var t := f.invoiceData.value.totalAmount.value.yen;
              if f.invoiceData.value.isTaxIncluded then r == t else 10 * r <= 11 * t + 5 < 10 * r + 10
  {
    if !IsInvoicePdf(f) then 0
    else
      var d := f.invoiceData.value;
      match (if d.totalAmount.Some? then d.totalAmount.value else Num(0))
      case NaN => 0
      case Num(t) => if d.isTaxIncluded then t else TaxInclusive(t)
  }

  /** `files.reduce((total, file) => total + amount(file), 0)`. */
  function FolderTotal(files: seq<MyFile>): int
  {
    if files == [] then 0 else FolderTotal(files[..|files| - 1]) + FileAmount(files[|files| - 1])
  }

  lemma {:induction false} FolderTotalAppend(a: seq<MyFile>, b: seq<MyFile>)
    ensures FolderTotal(a + b) == FolderTotal(a) + FolderTotal(b)
    decreases |b|
  {
    if b == [] {
      assert a + b == a;
    } else {
      var b' := b[..|b| - 1];
      assert (a + b)[..|a + b| - 1] == a + b';
      FolderTotalAppend(a, b');
    }
  }

  lemma FolderTotalCons(f: MyFile, s: seq<MyFile>)
    ensures FolderTotal([f] + s) == FileAmount(f) + FolderTotal(s)
  {
    FolderTotalAppend([f], s);
    assert [f][..0] == [];
  }

  /** The total does not depend on the order the files are listed in. */
  lemma {:induction false} FolderTotalPermutation(s: seq<MyFile>, t: seq<MyFile>)
    requires multiset(s) == multiset(t)
    ensures FolderTotal(s) == FolderTotal(t)
    decreases |s|
  {
    if s == [] {
      assert |t| == |multiset(t)| == 0;
    } else {
      var f := s[0];
      assert f in multiset(t);
      var k :| 0 <= k < |t| && t[k] == f;
      var rest := t[..k] + t[k + 1..];
      assert t == t[..k] + [f] + t[k + 1..];
      assert s == [f] + s[1..];
      assert multiset(rest) == multiset(t) - multiset{f};
      FolderTotalPermutation(s[1..], rest);
      FolderTotalCons(f, s[1..]);
      FolderTotalAppend(t[..k] + [f], t[k + 1..]);
      FolderTotalAppend(t[..k], [f]);
      FolderTotalAppend(t[..k], t[k + 1..]);
      assert [f][..0] == [];
    }
  }

  /** Only invoice PDFs among the files. */
  function InvoicePdfs(s: seq<MyFile>): (r: seq<MyFile>)
    ensures forall f :: f in r <==> f in s && IsInvoicePdf(f)
  {
    if s == [] then []
    else InvoicePdfs(s[..|s| - 1]) + (if IsInvoicePdf(s[|s| - 1]) then [s[|s| - 1]] else [])
  }

  /** Files other than invoice PDFs contribute nothing to the total. */
  lemma {:induction false} OnlyInvoicesCount(s: seq<MyFile>)
    ensures FolderTotal(s) == FolderTotal(InvoicePdfs(s))
    decreases |s|
  {
    if s != [] {
      var init := s[..|s| - 1];
      var last := s[|s| - 1];
      OnlyInvoicesCount(init);
      FolderTotalAppend(InvoicePdfs(init), if IsInvoicePdf(last) then [last] else []);
      assert [last][..0] == [];
    }
  }

  /** A PDF whose stored amount is `t`. */
  function InvoiceFile(t: int, taxIncluded: bool): MyFile
  {
    MyFile("1", "請求書_1.pdf", Pdf, 0, "", 0, Some("f"), None, false,
      Some(BlankInvoice.(totalAmount := Some(Num(t)), isTaxIncluded := taxIncluded)))
  }

  /** The worked example: an invoice of 2500 yen is shown as 2500 when
      stored with tax and as 2750 when stored without. */
  lemma TotalsExample()
    ensures FolderTotal([InvoiceFile(2500, true)]) == 2500
    ensures FolderTotal([InvoiceFile(2500, false)]) == 2750
    ensures FolderTotal([InvoiceFile(2500, true), InvoiceFile(2500, false)]) == 5250
  {
    FolderTotalAppend([InvoiceFile(2500, true)], [InvoiceFile(2500, false)]);
  }
}
