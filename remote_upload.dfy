/**
 * The top-level `route.ts` upload handler: the same guards and sanitiser as
 * the local upload route, but the file is copied to a remote host over SSH
 * and recorded under that host's URL. The SSH call and its base64 payload
 * are not modelled beyond the path they write to and a flag `sshFails`; a
 * throwing `INSERT` is `insertFails`.
 */
module RemoteUploadRoute {
  import opened Wrappers
  import opened Db
  import opened Auth
  import opened FileNames
  import opened DocumentUploadRoute

  const RemoteUploaded: Reply := Reply(200, "File uploaded successfully")
  const UploadFailed: Reply := Reply(500, "Upload failed")

  /** The remote host's upload directory, and the URL it is published under. */
  const RemoteDir := "/var/www/uploads/"
  const RemoteUrlPrefix := "https://209.97.155.164/uploads/"

  /** Where the remote shell writes the file. */
  function RemotePath(fileName: string): (path: string)
    ensures |path| == |RemoteDir| + |fileName| && path[..|RemoteDir|] == RemoteDir && path[|RemoteDir|..] == fileName
  {
    RemoteDir + fileName
  }

  /** The public URL recorded for the file. */
  function RemoteUrl(fileName: string): (url: string)
    ensures |url| == |RemoteUrlPrefix| + |fileName| && url[..|RemoteUrlPrefix|] == RemoteUrlPrefix && url[|RemoteUrlPrefix|..] == fileName
  {
    RemoteUrlPrefix + fileName
  }

  /**
   * The request's effect, in `stored` the remote path written: 401 and 400
   * as in the local route; a failing SSH call stores nothing and a failing
   * insert leaves the remote file without a row, both with 500 "Upload
   * failed"; success appends one row owned by the current user and replies
   * with the default status 200.
   */
  function RemoteUpload(user: Option<Identity>, documents: seq<DocumentRow>, file: Option<UploadedFile>,
                        now: nat, sshFails: bool, insertFails: bool): (o: Outcome)
    ensures user.None? ==> o == Outcome(Unauthorized, None, None, documents)
    ensures user.Some? && file.None? ==> o == Outcome(NoFile, None, None, documents)
    ensures user.Some? && file.Some? ==>
              o.stored == (if sshFails then None else Some(RemotePath(StoredName(now, file.value.name))))
    ensures o.reply == RemoteUploaded <==> user.Some? && file.Some? && !sshFails && !insertFails
    ensures o.reply == RemoteUploaded ==>
              var url := RemoteUrl(StoredName(now, file.value.name));
              && o.fileUrl == Some(url)
              && o.documents == documents + [DocumentRow(user.value.id, url)]
    ensures o.reply != RemoteUploaded ==> o.documents == documents && o.fileUrl == None
    ensures o.reply.status == 500 <==> user.Some? && file.Some? && (sshFails || insertFails)
  {
    if user.None? then Outcome(Unauthorized, None, None, documents)
    else if file.None? then Outcome(NoFile, None, None, documents)
    else
      var fileName := StoredName(now, file.value.name);
      var remotePath := RemotePath(fileName);
      if sshFails then Outcome(UploadFailed, None, None, documents)
      else if insertFails then Outcome(UploadFailed, None, Some(remotePath), documents)
      else
        var url := RemoteUrl(fileName);
        Outcome(RemoteUploaded, Some(url), Some(remotePath), documents + [DocumentRow(user.value.id, url)])
  }

  /** `POST`: the guards, the SSH copy, then the insert. */
  method Post(user: Option<Identity>, documents: Table<DocumentRow>, file: Option<UploadedFile>,
              now: nat, sshFails: bool, insertFails: bool)
    returns (reply: Reply, fileUrl: Option<string>, stored: Option<string>)
    modifies documents
    ensures Outcome(reply, fileUrl, stored, documents.rows) == RemoteUpload(user, old(documents.rows), file, now, sshFails, insertFails)
  {
    if user.None? {
      return Unauthorized, None, None;
    }
    if file.None? {
      return NoFile, None, None;
    }
    var fileName := StoredName(now, file.value.name);
    var remotePath := RemotePath(fileName);
    if sshFails {
      return UploadFailed, None, None;
    }
    stored := Some(remotePath);
    var url := RemoteUrl(fileName);
    if insertFails {
      return UploadFailed, None, stored;
    }
    documents.Insert(DocumentRow(user.value.id, url));
    return RemoteUploaded, Some(url), stored;
  }

  /**
   * The remote path interpolated into the shell command holds only path
   * separators and characters the sanitiser lets through, so no quote,
   * space, `;`, `$` or backtick from a file name reaches the shell.
   */
  lemma RemotePathIsShellSafe(now: nat, name: string)
    ensures var p := RemotePath(StoredName(now, name));
            forall i :: 0 <= i < |p| ==> SafeChar(p[i]) || p[i] == '/'
  {
    var f := StoredName(now, name);
    var p := RemotePath(f);
    StoredNameIsSafe(now, name);
    forall i | 0 <= i < |p|
      ensures SafeChar(p[i]) || p[i] == '/'
    {
      if i >= |RemoteDir| {
        assert p[i] == f[i - |RemoteDir|];
      } else {
        assert p[i] == RemoteDir[i];
      }
    }
  }

  /**
   * Both routes name the same upload identically: the remote URL and path
   * and the local URL all end with the one stored name.
   */
  lemma RoutesAgreeOnName(user: Option<Identity>, documents: seq<DocumentRow>, file: Option<UploadedFile>,
                          now: nat, insertFails: bool)
    requires user.Some? && file.Some?
    ensures var local := Upload(user, documents, file, now, false, insertFails);
            var remote := RemoteUpload(user, documents, file, now, false, insertFails);
            && local.stored.Some? && remote.stored.Some?
            && remote.stored.value == RemotePath(local.stored.value)
            && (!insertFails ==> remote.fileUrl.value[|RemoteUrlPrefix|..] == local.fileUrl.value[|UploadsUrl|..])
  {
  }

  /** The two routes differ in the success status: 200 here against 201 there. */
  lemma SuccessStatusesDiffer(user: Option<Identity>, documents: seq<DocumentRow>, file: Option<UploadedFile>, now: nat)
    requires user.Some? && file.Some?
    ensures RemoteUpload(user, documents, file, now, false, false).reply.status == 200
    ensures Upload(user, documents, file, now, false, false).reply.status == 201
  {
  }
}
