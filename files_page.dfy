/**
 * The file library's ingestion: each selected file is checked against the
 * MIME allow-list and the size ceiling, independently of the others, and
 * every accepted file is handed to the application's `onAddFile`.
 *
 * The file reads complete asynchronously in the browser; here they are taken
 * in list order, with each file's data URL, random id and upload time given
 * as part of the selection.
 */
module FilesPage {
  import opened Types
  import opened Text
  import Application

  const MaxFileSize: nat := 5 * 1024 * 1024

  /** What the browser's `File` exposes: name, MIME type and size in bytes. */
  datatype BrowserFile = BrowserFile(name: string, mimeType: string, size: nat)

  /** A chosen file with what the environment supplies for it. */
  datatype Selection = Selection(file: BrowserFile, dataUrl: string, id: string, uploadDate: int)

  datatype Rejection = UnsupportedType(name: string) | TooLarge(name: string)

  /** The alert shown for a rejected file. */
  function AlertText(r: Rejection): string {
    match r
    case UnsupportedType(name) => "Arquivo " + name + " ignorado. Apenas Imagens e PDF são aceitos."
    case TooLarge(name) => "Arquivo " + name + " é muito grande (Máx 5MB)."
  }

  predicate IsImageType(mimeType: string) {
    StartsWith(mimeType, "image/")
  }

  predicate IsPdfType(mimeType: string) {
    mimeType == "application/pdf"
  }

  /** The checks of one file: the type first, then the size. */
  function Check(f: BrowserFile): (r: Result<FileKind, Rejection>)
    ensures r.Ok? <==> (IsImageType(f.mimeType) || IsPdfType(f.mimeType)) && f.size <= MaxFileSize
    ensures !IsImageType(f.mimeType) && !IsPdfType(f.mimeType) ==> r == Err(UnsupportedType(f.name))
    ensures (IsImageType(f.mimeType) || IsPdfType(f.mimeType)) && f.size > MaxFileSize ==> r == Err(TooLarge(f.name))
    ensures r.Ok? ==> (r.value == Image <==> IsImageType(f.mimeType))
  {
    var isImage := IsImageType(f.mimeType);
    var isPdf := IsPdfType(f.mimeType);
    if !isImage && !isPdf then Err(UnsupportedType(f.name))
    else if f.size > MaxFileSize then Err(TooLarge(f.name))
    else Ok(if isImage then Image else Pdf)
  }

  /** `dataUrl.split(',')[1]`; a URL without a comma gives empty data. */
  function Base64Payload(dataUrl: string): string {
    var pieces := Split(dataUrl, ',');
    if |pieces| > 1 then pieces[1] else ""
  }

  /** The payload of `<header>,<base64>` is the base64 text. */
  lemma PayloadAfterComma(header: string, base64: string)
    requires ',' !in header && ',' !in base64
    ensures Base64Payload(header + [','] + base64) == base64
  {
    SplitAfterPiece(header, ',', base64);
    SplitFree(base64, ',');
  }

  /**
   * The picture `App` rebuilds from a stored file reads back, through the
   * same split, as the stored base64 text: MIME types and base64 carry no comma.
   */
  lemma StoredDataUrlRoundTrip(f: StoredFile)
    requires ',' !in f.mimeType && ',' !in f.data
    ensures Base64Payload(Application.DataUrl(f)) == f.data
  {
    var header := "data:" + f.mimeType + ";base64";
    assert Application.DataUrl(f) == header + [','] + f.data;
    PayloadAfterComma(header, f.data);
  }

  /** The ceiling is inclusive, and an oversized file of a refused type is refused for its type. */
  lemma CheckBoundaries(name: string)
    ensures Check(BrowserFile(name, "image/png", MaxFileSize)) == Ok(Image)
    ensures Check(BrowserFile(name, "application/pdf", MaxFileSize)) == Ok(Pdf)
    ensures Check(BrowserFile(name, "application/pdf", MaxFileSize + 1)) == Err(TooLarge(name))
    ensures Check(BrowserFile(name, "text/plain", MaxFileSize + 1)) == Err(UnsupportedType(name))
  {
    assert IsImageType("image/png") by {
      assert "image/png"[..|"image/"|] == "image/";
    }
    assert !IsImageType("application/pdf") by {
      assert "application/pdf"[0] != "image/"[0];
    }
    assert !IsImageType("text/plain") by {
      assert "text/plain"[0] != "image/"[0];
    }
  }

  /** The stored file built once the read completes. */
  function ToStoredFile(s: Selection, kind: FileKind): (f: StoredFile)
    ensures f.name == s.file.name && f.mimeType == s.file.mimeType && f.size == s.file.size
    ensures f.kind == kind && f.id == s.id && f.uploadDate == s.uploadDate
    ensures f.data == Base64Payload(s.dataUrl)
  {
    StoredFile(s.id, s.file.name, kind, s.file.mimeType, Base64Payload(s.dataUrl), s.file.size, s.uploadDate)
  }

  /** What one selection adds to the library: its stored file, or nothing. */
  function AcceptedOne(s: Selection): (r: seq<StoredFile>)
    ensures |r| <= 1
    ensures r != [] <==> Check(s.file).Ok?
    ensures r != [] ==> r[0].data == Base64Payload(s.dataUrl) && r[0].name == s.file.name
  {
    match Check(s.file)
    case Ok(kind) => [ToStoredFile(s, kind)]
    case Err(_) => []
  }

  /** What one selection adds to the alerts: its rejection, or nothing. */
  function RejectedOne(s: Selection): (r: seq<Rejection>)
    ensures |r| <= 1
    ensures r != [] <==> Check(s.file).Err?
    ensures |AcceptedOne(s)| + |r| == 1
  {
    match Check(s.file)
    case Ok(_) => []
    case Err(reason) => [reason]
  }

  /** The files of a batch that pass, in batch order. */
  function Accepted(batch: seq<Selection>): seq<StoredFile> {
    if batch == [] then [] else AcceptedOne(batch[0]) + Accepted(batch[1..])
  }

  /** The rejections of a batch, in batch order. */
  function Rejected(batch: seq<Selection>): seq<Rejection> {
    if batch == [] then [] else RejectedOne(batch[0]) + Rejected(batch[1..])
  }

  /** A rejection does not stop the batch: each part of a batch is judged on its own. */
  lemma {:induction false} BatchSplits(a: seq<Selection>, b: seq<Selection>)
    ensures Accepted(a + b) == Accepted(a) + Accepted(b)
    ensures Rejected(a + b) == Rejected(a) + Rejected(b)
  {
    if a == [] {
      assert a + b == b;
    } else {
      assert (a + b)[1..] == a[1..] + b;
      assert (a + b)[0] == a[0];
      BatchSplits(a[1..], b);
      calc {
        Accepted(a + b);
        AcceptedOne(a[0]) + Accepted(a[1..] + b);
        AcceptedOne(a[0]) + (Accepted(a[1..]) + Accepted(b));
        (AcceptedOne(a[0]) + Accepted(a[1..])) + Accepted(b);
      }
      calc {
        Rejected(a + b);
        RejectedOne(a[0]) + Rejected(a[1..] + b);
        RejectedOne(a[0]) + (Rejected(a[1..]) + Rejected(b));
        (RejectedOne(a[0]) + Rejected(a[1..])) + Rejected(b);
      }
    }
  }

  /** Judging one more file of a batch extends the outcomes by that file's. */
  lemma BatchStep(batch: seq<Selection>, i: nat)
    requires i < |batch|
    ensures Accepted(batch[..i + 1]) == Accepted(batch[..i]) + AcceptedOne(batch[i])
    ensures Rejected(batch[..i + 1]) == Rejected(batch[..i]) + RejectedOne(batch[i])
  {
    assert batch[..i + 1] == batch[..i] + [batch[i]];
    BatchSplits(batch[..i], [batch[i]]);
    assert Accepted([batch[i]]) == AcceptedOne(batch[i]);
    assert Rejected([batch[i]]) == RejectedOne(batch[i]);
  }

  /** Every file of a batch is either added once or rejected once. */
  lemma {:induction false} EachFileOnce(batch: seq<Selection>)
    ensures |Accepted(batch)| + |Rejected(batch)| == |batch|
  {
    if batch != [] {
      EachFileOnce(batch[1..]);
      assert |AcceptedOne(batch[0])| + |RejectedOne(batch[0])| == 1;
    }
  }

  /** Whatever is added obeys the allow-list and the ceiling, and its kind follows its MIME type. */
  lemma {:induction false} AcceptedAreValid(batch: seq<Selection>)
    ensures forall f :: f in Accepted(batch) ==>
      && (IsImageType(f.mimeType) || IsPdfType(f.mimeType))
      && f.size <= MaxFileSize
      && (f.kind == Image <==> IsImageType(f.mimeType))
  {
    if batch != [] {
      AcceptedAreValid(batch[1..]);
      assert forall f :: f in AcceptedOne(batch[0]) ==> f.size <= MaxFileSize && (IsImageType(f.mimeType) || IsPdfType(f.mimeType)) && (f.kind == Image <==> IsImageType(f.mimeType));
    }
  }

  class FilesPageState {
    var isProcessing: bool

    constructor ()
      ensures !isProcessing
    {
      isProcessing := false;
    }

    /**
     * `processFiles`: no list, no work. Otherwise every accepted file is
     * appended to the application's library, in order, and every rejected
     * one yields its alert; `isProcessing` is false afterwards.
     */
    method ProcessFiles(fileList: Option<seq<Selection>>, app: Application.App) returns (alerts: seq<Rejection>)
      modifies this`isProcessing, app`files
      ensures fileList.None? ==> app.files == old(app.files) && alerts == [] && isProcessing == old(isProcessing)
      ensures fileList.Some? ==>
                app.files == old(app.files) + Accepted(fileList.value)
                && alerts == Rejected(fileList.value) && !isProcessing
    {
      alerts := [];
      if fileList.None? {
        return;
      }
      var batch := fileList.value;
      isProcessing := true;
      var i := 0;
      while i < |batch|
        invariant 0 <= i <= |batch|
        invariant app.files == old(app.files) + Accepted(batch[..i])
        invariant alerts == Rejected(batch[..i])
      {
        BatchStep(batch, i);
        var verdict := Check(batch[i].file);
        if verdict.Err? {
          assert AcceptedOne(batch[i]) == [] && RejectedOne(batch[i]) == [verdict.error];
          alerts := alerts + [verdict.error];
        } else {
          assert AcceptedOne(batch[i]) == [ToStoredFile(batch[i], verdict.value)] && RejectedOne(batch[i]) == [];
          app.HandleAddFile(ToStoredFile(batch[i], verdict.value));
        }
        i := i + 1;
      }
      assert batch[..i] == batch;
      isProcessing := false;
    }
  }
}
