/**
 * The documents table's helpers: the name shown for a document, its kind
 * badge, whether it can be previewed, and the width of the empty-state row.
 */
module DocumentTable {
  import opened Text
  import opened FileNames
  import DocumentUploadRoute

  /** The badge `getFileIcon` shows. */
  datatype Kind = Pdf | Doc | Image | File

  /** `file_url.split("/").pop() || "document"`. */
  function DisplayName(fileUrl: string): (name: string)
    ensures name != []
    ensures LastSegment(fileUrl, '/') != [] ==> name == LastSegment(fileUrl, '/')
    ensures LastSegment(fileUrl, '/') == [] ==> name == "document"
  {
    var last := LastSegment(fileUrl, '/');
    if last != [] then last else "document"
  }

  /** The badge for a lower-cased extension. */
  function KindOf(ext: string): (k: Kind)
    ensures k == Pdf <==> ext == "pdf"
    ensures k == Doc <==> ext in {"doc", "docx"}
    ensures k == Image <==> ext in {"jpg", "jpeg", "png"}
  {
    if ext == "pdf" then Pdf
    else if ext == "doc" || ext == "docx" then Doc
    else if ext == "jpg" || ext == "jpeg" || ext == "png" then Image
    else File
  }

  /** `getFileIcon`: the kind of a file by its case-insensitive extension. */
  function FileKind(fileName: string): (k: Kind)
    ensures k == Pdf <==> Extension(fileName) == "pdf"
    ensures k == Doc <==> Extension(fileName) in {"doc", "docx"}
    ensures k == Image <==> Extension(fileName) in {"jpg", "jpeg", "png"}
  {
    KindOf(Extension(fileName))
  }

  /** The lower-cased extensions the preview dialog can show. */
  predicate Previewable(ext: string) {
    ext == "pdf" || ext == "jpg" || ext == "jpeg" || ext == "png"
  }

  /** `canPreview`. */
  predicate CanPreview(fileName: string)
    ensures CanPreview(fileName) <==> Extension(fileName) in {"pdf", "jpg", "jpeg", "png"}
  {
    Previewable(Extension(fileName))
  }

  /** Exactly the PDF and image kinds can be previewed; DOC files never can. */
  lemma PreviewIffPdfOrImage(fileName: string)
    ensures CanPreview(fileName) <==> FileKind(fileName) in {Pdf, Image}
  {
  }

  /** Kind and preview do not depend on the case of the name. */
  lemma KindIgnoresCase(fileName: string)
    ensures FileKind(Lower(fileName)) == FileKind(fileName)
    ensures CanPreview(Lower(fileName)) == CanPreview(fileName)
  {
    ExtensionIgnoresCase(fileName);
  }

  /** `base.ext` has the kind of `ext` in lower case: `scan.PDF` is a PDF. */
  lemma KindOfExtension(base: string, ext: string)
    requires '.' !in ext
    ensures Lower(ext) == "pdf" ==> FileKind(base + "." + ext) == Pdf
    ensures Lower(ext) in {"doc", "docx"} ==> FileKind(base + "." + ext) == Doc
    ensures Lower(ext) in {"jpg", "jpeg", "png"} ==> FileKind(base + "." + ext) == Image
    ensures Lower(ext) !in {"pdf", "doc", "docx", "jpg", "jpeg", "png"} ==> FileKind(base + "." + ext) == File
  {
    ExtensionOf(base, ext);
  }

  /** A document whose URL ends in `/` is shown as `document`, a plain file without preview. */
  lemma FallbackNameIsPlainFile(fileUrl: string)
    requires fileUrl != [] && fileUrl[|fileUrl| - 1] == '/'
    ensures DisplayName(fileUrl) == "document"
    ensures FileKind(DisplayName(fileUrl)) == File && !CanPreview(DisplayName(fileUrl))
  {
    var name := DisplayName(fileUrl);
    LastSegmentWhole(name, '.');
    assert |Extension(name)| == 8;
  }

  /** A locally uploaded document is shown under its stored name. */
  lemma UploadShownByStoredName(now: nat, name: string)
    ensures DisplayName(DocumentUploadRoute.FileUrl(StoredName(now, name))) == StoredName(now, name)
  {
    var fileName := StoredName(now, name);
    StoredNameIsSafe(now, name);
    assert DocumentUploadRoute.FileUrl(fileName) == "/uploads" + ['/'] + fileName;
    LastSegmentAppend("/uploads", '/', fileName);
  }

  /** The header's columns: User (admins only), File Name, Type, Uploaded, Actions. */
  function HeaderColumns(isAdmin: bool): seq<string> {
    (if isAdmin then ["User"] else []) + ["File Name", "Type", "Uploaded", "Actions"]
  }

  /** The `colSpan` of the "No documents found" cell. */
  function EmptyColspan(isAdmin: bool): nat {
    if isAdmin then 5 else 4
  }

  /** The empty-state cell spans the whole header, for admins and others alike. */
  lemma EmptyRowSpansHeader(isAdmin: bool)
    ensures EmptyColspan(isAdmin) == |HeaderColumns(isAdmin)|
  {
  }
}
