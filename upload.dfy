/** The image upload endpoint: who may upload, which files pass, and the row and URL a
    stored file gets. */
module Upload {
  import opened Wrappers
  import opened Schema
  import opened Types
  import Constants

  const UPLOAD_URL_PREFIX := "/api/uploads/"

  /** The file part of the form, when there is one. */
  datatype UploadFile = UploadFile(name: string, mimeType: string, size: int)

  /** The JSON response: an error with its status, or the public URL of the stored file. */
  datatype UploadResponse = Refused(status: nat, error: string) | Stored(url: string)

  /** `MIME_TO_EXT`. */
  function Extension(mimeType: string): Option<string> {
    if mimeType == "image/jpeg" then Some("jpg")
    else if mimeType == "image/png" then Some("png")
    else if mimeType == "image/webp" then Some("webp")
    else if mimeType == "image/gif" then Some("gif")
    else None
  }

  /** The extension table covers exactly the allowed types, so an accepted file always
      gets an extension. */
  lemma ExtensionForAllowedTypes(mimeType: string)
    ensures Extension(mimeType).Some? <==> mimeType in Constants.ALLOWED_IMAGE_TYPES
  {
    assert Constants.ALLOWED_IMAGE_TYPES[0] == "image/jpeg";
    assert Constants.ALLOWED_IMAGE_TYPES[1] == "image/png";
    assert Constants.ALLOWED_IMAGE_TYPES[2] == "image/webp";
    assert Constants.ALLOWED_IMAGE_TYPES[3] == "image/gif";
  }

  /** The guard chain: the first check a request fails decides the response. */
  function Refusal(session: Option<SessionUser>, file: Option<UploadFile>): (r: Option<UploadResponse>)
    ensures r.Some? ==> r.value.Refused?
    ensures r == Some(Refused(401, "Unauthorized")) <==> session.None? || session.value.id == ""
    ensures r == Some(Refused(403, "Forbidden")) <==>
      session.Some? && session.value.id != "" && session.value.role != Admin
    ensures r == Some(Refused(400, "No file provided")) <==>
      IsAdminSession(session) && file.None?
    ensures r == Some(Refused(400, "Invalid file type")) <==>
      IsAdminSession(session) && file.Some? && file.value.mimeType !in Constants.ALLOWED_IMAGE_TYPES
    ensures r == Some(Refused(400, "File too large (max 5MB)")) <==>
      IsAdminSession(session) && file.Some? && file.value.mimeType in Constants.ALLOWED_IMAGE_TYPES
      && file.value.size > Constants.MAX_IMAGE_SIZE
    ensures r.None? <==>
      IsAdminSession(session) && file.Some? && file.value.mimeType in Constants.ALLOWED_IMAGE_TYPES
      && file.value.size <= Constants.MAX_IMAGE_SIZE
  {
    if session.None? || session.value.id == "" then Some(Refused(401, "Unauthorized"))
    else if session.value.role != Admin then Some(Refused(403, "Forbidden"))
    else if file.None? then Some(Refused(400, "No file provided"))
    else if file.value.mimeType !in Constants.ALLOWED_IMAGE_TYPES then Some(Refused(400, "Invalid file type"))
    else if file.value.size > Constants.MAX_IMAGE_SIZE then Some(Refused(400, "File too large (max 5MB)"))
    else None
  }

  /** A signed-in caller (non-empty user id) with the admin role. */
  predicate IsAdminSession(session: Option<SessionUser>) {
    session.Some? && session.value.id != "" && session.value.role == Admin
  }

  /** The size limit is inclusive: a file of exactly 5 MiB passes, one byte more does not. */
  lemma SizeLimitInclusive(session: Option<SessionUser>, name: string, mimeType: string)
    requires IsAdminSession(session) && mimeType in Constants.ALLOWED_IMAGE_TYPES
    ensures Refusal(session, Some(UploadFile(name, mimeType, 5 * 1024 * 1024))).None?
    ensures Refusal(session, Some(UploadFile(name, mimeType, 5 * 1024 * 1024 + 1))).Some?
  {
  }

  /** The stored name: the fresh UUID, a dot, and the type's extension. */
  function StoredName(uuid: string, ext: string): (filename: string)
    ensures |filename| == |uuid| + 1 + |ext|
    ensures filename[..|uuid|] == uuid && filename[|uuid|] == '.' && filename[|uuid| + 1..] == ext
  {
    uuid + "." + ext
  }

  /** `POST /api/upload`. On a refusal nothing is stored; otherwise exactly one image row
      is appended, owned by the caller and attached to no post, and the response names the
      stored file under the uploads URL. `uuid` and `rowId` stand for the two
      `crypto.randomUUID()` values and `now` for the time; writing the bytes to disk is not
      modelled. */
  method UploadImage(db: Database, session: Option<SessionUser>, file: Option<UploadFile>,
                     uuid: string, rowId: string, now: int)
    returns (r: UploadResponse)
    modifies db`images
    ensures Refusal(session, file).Some? ==> r == Refusal(session, file).value && db.images == old(db.images)
    ensures Refusal(session, file).None? ==>
      var ext := Extension(file.value.mimeType).value;
      r == Stored(UPLOAD_URL_PREFIX + StoredName(uuid, ext))
      && db.images == old(db.images) + [ImageRecord(rowId, StoredName(uuid, ext), file.value.name,
                                                    file.value.mimeType, file.value.size,
                                                    Some(session.value.id), None, now)]
  {
    var refusal := Refusal(session, file);
    if refusal.Some? {
      return refusal.value;
    }
    ExtensionForAllowedTypes(file.value.mimeType);
    var ext := Extension(file.value.mimeType).value;
    var filename := StoredName(uuid, ext);
    db.images := db.images + [ImageRecord(rowId, filename, file.value.name, file.value.mimeType,
                                          file.value.size, Some(session.value.id), None, now)];
    r := Stored(UPLOAD_URL_PREFIX + filename);
  }
}
