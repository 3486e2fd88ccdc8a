/**
 * `POST /api/documents/upload`: store an uploaded file under the local
 * upload directory and record it in `documents`. The clock (`Date.now()`)
 * is the parameter `now`; the file's bytes and the file system are not
 * modelled, only the name the file is written under. A throwing
 * `writeFile` and a throwing `INSERT` are the flags `writeFails` and
 * `insertFails`; a failing `mkdir` is logged and ignored by the route, so it
 * has no flag.
 */
module DocumentUploadRoute {
  import opened Wrappers
  import opened Db
  import opened Auth
  import opened FileNames

  /** The `file` entry of the form data, by the name the browser sent. */
  datatype UploadedFile = UploadedFile(name: string)

  /**
   * A reply, the `fileUrl` it carries, the name the file was written under
   * in the upload directory (if it was), and the `documents` table after
   * the request.
   */
  datatype Outcome = Outcome(reply: Reply, fileUrl: Option<string>, stored: Option<string>, documents: seq<DocumentRow>)

  const NoFile: Reply := Reply(400, "No file provided")
  const Uploaded: Reply := Reply(201, "Document uploaded successfully")

  /** The public directory's URL path. */
  const UploadsUrl := "/uploads/"

  /** The URL the application serves a stored file under. */
  function FileUrl(fileName: string): (url: string)
    ensures |url| == |UploadsUrl| + |fileName| && url[..|UploadsUrl|] == UploadsUrl && url[|UploadsUrl|..] == fileName
  {
    UploadsUrl + fileName
  }

  /**
   * The request's effect: 401 without a session user and 400 without a
   * file, both with nothing written; otherwise the file goes to disk under
   * its stored name and then one row owned by the current user records its
   * URL. A failing write stores nothing; a failing insert leaves the file on
   * disk without a row. Both reply 500.
   */
  function Upload(user: Option<Identity>, documents: seq<DocumentRow>, file: Option<UploadedFile>,
                  now: nat, writeFails: bool, insertFails: bool): (o: Outcome)
    ensures user.None? ==> o == Outcome(Unauthorized, None, None, documents)
    ensures user.Some? && file.None? ==> o == Outcome(NoFile, None, None, documents)
    ensures user.Some? && file.Some? ==>
              o.stored == (if writeFails then None else Some(StoredName(now, file.value.name)))
    ensures o.reply == Uploaded <==> user.Some? && file.Some? && !writeFails && !insertFails
    ensures o.reply == Uploaded ==>
              var url := FileUrl(StoredName(now, file.value.name));
              && o.fileUrl == Some(url)
              && o.documents == documents + [DocumentRow(user.value.id, url)]
    ensures o.reply != Uploaded ==> o.documents == documents && o.fileUrl == None
    ensures o.reply.status == 500 <==> o.reply == InternalError
  {
    if user.None? then Outcome(Unauthorized, None, None, documents)
    else if file.None? then Outcome(NoFile, None, None, documents)
    else
      var fileName := StoredName(now, file.value.name);
      if writeFails then Outcome(InternalError, None, None, documents)
      else if insertFails then Outcome(InternalError, None, Some(fileName), documents)
      else
        var url := FileUrl(fileName);
        Outcome(Uploaded, Some(url), Some(fileName), documents + [DocumentRow(user.value.id, url)])
  }

  /** `POST`: the guards, the write, then the insert. */
  method Post(user: Option<Identity>, documents: Table<DocumentRow>, file: Option<UploadedFile>,
              now: nat, writeFails: bool, insertFails: bool)
    returns (reply: Reply, fileUrl: Option<string>, stored: Option<string>)
    modifies documents
    ensures Outcome(reply, fileUrl, stored, documents.rows) == Upload(user, old(documents.rows), file, now, writeFails, insertFails)
  {
    if user.None? {
      return Unauthorized, None, None;
    }
    if file.None? {
      return NoFile, None, None;
    }
    var fileName := StoredName(now, file.value.name);
    if writeFails {
      return InternalError, None, None;
    }
    stored := Some(fileName);
    var url := FileUrl(fileName);
    if insertFails {
      return InternalError, None, stored;
    }
    documents.Insert(DocumentRow(user.value.id, url));
    return Uploaded, Some(url), stored;
  }

  /**
   * The file is written as a single entry directly inside the upload
   * directory: its name is one path segment, neither `.` nor `..`, and the
   * recorded URL ends with exactly that segment.
   */
  lemma StoredInsideUploadDir(user: Option<Identity>, documents: seq<DocumentRow>, file: Option<UploadedFile>,
                              now: nat, writeFails: bool, insertFails: bool)
    ensures var o := Upload(user, documents, file, now, writeFails, insertFails);
            o.stored.Some? ==>
              && '/' !in o.stored.value && o.stored.value != "." && o.stored.value != ".."
              && (o.fileUrl.Some? ==> o.fileUrl.value == UploadsUrl + o.stored.value)
  {
    if user.Some? && file.Some? {
      StoredNameIsSafe(now, file.value.name);
    }
  }

  /** Two successful uploads at different times never record the same URL. */
  lemma DistinctUploadsDistinctUrls(m: nat, a: string, n: nat, b: string)
    requires m != n
    ensures FileUrl(StoredName(m, a)) != FileUrl(StoredName(n, b))
  {
    DistinctTimesDistinctNames(m, a, n, b);
    assert FileUrl(StoredName(m, a))[|UploadsUrl|..] == StoredName(m, a);
  }
}
