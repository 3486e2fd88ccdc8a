/**
 * `middleware.ts`: serve files under `/uploads/` with a content type chosen
 * by extension and an inline `Content-Disposition` (section 4.1 of RFC
 * 6266). Whether `stat` and `readFile` succeed is the parameter `readable`;
 * the file's bytes are not modelled.
 */
module Middleware {
  import opened Wrappers
  import opened Text
  import opened FileNames
  import DocumentUploadRoute

  /** What the middleware does with a request. */
  datatype Response =
    | PassThrough                                     // `NextResponse.next()`
    | Missing(reply: Reply)                           // the JSON 404
    | Serve(contentType: string, disposition: string) // the file, with these headers

  const UploadsPrefix := "/uploads/"
  const FileNotFound: Reply := Reply(404, "File not found")
  const OctetStream := "application/octet-stream"

  predicate HandledPath(pathname: string) {
    |pathname| >= |UploadsPrefix| && pathname[..|UploadsPrefix|] == UploadsPrefix
  }

  /** The content type for a lower-cased extension. */
  function ContentType(ext: string): (t: string)
    ensures ext == "pdf" ==> t == "application/pdf"
    ensures ext == "doc" || ext == "docx" ==> t == "application/msword"
    ensures ext == "jpg" || ext == "jpeg" ==> t == "image/jpeg"
    ensures ext == "png" ==> t == "image/png"
    ensures ext !in {"pdf", "doc", "docx", "jpg", "jpeg", "png"} ==> t == OctetStream
  {
    if ext == "pdf" then "application/pdf"
    else if ext == "doc" || ext == "docx" then "application/msword"
    else if ext == "jpg" || ext == "jpeg" then "image/jpeg"
    else if ext == "png" then "image/png"
    else OctetStream
  }

  /** `inline; filename="<last path segment>"`. */
  const InlinePrefix := "inline; filename=\""

  /**
   * `inline; filename="<last path segment>"`: the quoted name is a suffix of
   * the path that holds no `/`.
   */
  function Disposition(pathname: string): (d: string)
    ensures |d| >= |InlinePrefix| + 1 && d[..|InlinePrefix|] == InlinePrefix && d[|d| - 1] == '"'
    ensures var n := d[|InlinePrefix|..|d| - 1];
            && '/' !in n && |n| <= |pathname| && n == pathname[|pathname| - |n|..]
  {
    var n := LastSegment(pathname, '/');
    Enclosed(InlinePrefix, n, '"');
    InlinePrefix + n + ['"']
  }

  /** The parts of `head + body + [last]` can be read back by position. */
  lemma Enclosed(head: string, body: string, last: char)
    ensures var d := head + body + [last];
            && |d| == |head| + |body| + 1
            && d[..|head|] == head && d[|head|..|d| - 1] == body && d[|d| - 1] == last
  {
    var d := head + body + [last];
    assert d[..|head|] == head;
    assert d[|head|..|d| - 1] == body;
  }

  /**
   * The middleware: paths outside `/uploads/` pass through; a file that
   * cannot be read gives 404; otherwise the file is served with the type of
   * its extension and its last path segment as the file name.
   */
  function Handle(pathname: string, readable: bool): (r: Response)
    ensures r.PassThrough? <==> !HandledPath(pathname)
    ensures r.Missing? <==> HandledPath(pathname) && !readable
    ensures r.Missing? ==> r.reply == FileNotFound
    ensures r.Serve? ==>
              r.contentType == ContentType(Extension(pathname)) && r.disposition == Disposition(pathname)
  {
    if !HandledPath(pathname) then PassThrough
    else if !readable then Missing(FileNotFound)
    else Serve(ContentType(Extension(pathname)), Disposition(pathname))
  }

  /** Every URL the local upload route records is one this middleware handles. */
  lemma RecordedUrlsAreHandled(fileName: string)
    ensures HandledPath(DocumentUploadRoute.FileUrl(fileName))
  {
  }

  /**
   * A stored upload is served under exactly its stored name: the header's
   * file name is the whole stored name, which holds no quote or `/`.
   */
  lemma StoredFileDisposition(now: nat, name: string)
    ensures var fileName := StoredName(now, name);
            && Disposition(DocumentUploadRoute.FileUrl(fileName)) == "inline; filename=\"" + fileName + "\""
            && '"' !in fileName
  {
    var fileName := StoredName(now, name);
    StoredNameIsSafe(now, name);
    assert DocumentUploadRoute.FileUrl(fileName) == "/uploads" + ['/'] + fileName;
    LastSegmentAppend("/uploads", '/', fileName);
  }

  /** Extensions are matched case-insensitively: `a.PDF` is served as `application/pdf`. */
  lemma ContentTypeIgnoresCase(base: string, ext: string)
    requires '.' !in ext
    ensures ContentType(Extension(base + "." + ext)) == ContentType(Lower(ext))
  {
    ExtensionOf(base, ext);
  }

  /** A handled path without any dot has no known extension, so it is served as `application/octet-stream`. */
  lemma NoDotIsOctetStream(pathname: string)
    requires HandledPath(pathname) && '.' !in pathname
    ensures Handle(pathname, true) == Serve(OctetStream, Disposition(pathname))
  {
    LastSegmentWhole(pathname, '.');
    var ext := Extension(pathname);
    assert ext == Lower(pathname);
    LowerAt(pathname, 0);
    assert ext[0] == '/';
    assert ext != "pdf" && ext != "doc" && ext != "docx" && ext != "jpg" && ext != "jpeg" && ext != "png" by {
      assert "pdf"[0] != '/' && "doc"[0] != '/' && "docx"[0] != '/';
      assert "jpg"[0] != '/' && "jpeg"[0] != '/' && "png"[0] != '/';
    }
  }
}
