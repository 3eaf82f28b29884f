/**
 * A model of the request-handling logic of the image upload server:
 * the content-type allow-list, the upload filter's callback sequence,
 * the stored filename, the size limit, and the success and error
 * envelopes returned to the client.
 *
 * Configuration read from the environment (the host URL) and the
 * identifier produced by the UUID generator are parameters here.
 */
module ImageServer {

  datatype Option<T> = None | Some(value: T)

  // ---------------------------------------------------------------------
  // Errors
  // ---------------------------------------------------------------------

  /** An error reaching the central handler: the application's own
      `APIError`, which carries an HTTP status code, or any other error
      (for instance one raised by the upload library), which carries only
      a message. */
  datatype Error =
    | APIError(message: string, statusCode: int)
    | OtherError(message: string)

  // ---------------------------------------------------------------------
  // Constants
  // ---------------------------------------------------------------------

  /** A decimal megabyte. */
  const MB: nat := 1000000

  /** The upload library's limits option. */
  datatype Limits = Limits(fileSize: nat)

  /** The content types the server accepts, with the extension each is stored under. */
  const ACCEPTED_FILE_TYPES: map<string, string> := map["image/jpeg" := "jpeg", "image/png" := "png"]

  const MIMETYPE_NOT_ALLOWED: string := "This mimetype is not allowed."

  /** The limits passed to the upload library: ten decimal megabytes per file. */
  function UploadLimits(): (l: Limits)
    ensures l.fileSize == 10_000_000
    ensures l.fileSize < 10 * 1024 * 1024
  {
    Limits(10 * MB)
  }

  // ---------------------------------------------------------------------
  // The allow-list lookup
  // ---------------------------------------------------------------------

  /** `ACCEPTED_FILE_TYPES[mimetype]`: the extension for a content type,
      or `None` where JavaScript yields `undefined`. */
  function Lookup(mimetype: string): (ext: Option<string>)
    ensures ext == Some("jpeg") <==> mimetype == "image/jpeg"
    ensures ext == Some("png") <==> mimetype == "image/png"
    ensures ext == None <==> mimetype != "image/jpeg" && mimetype != "image/png"
  {
    if mimetype in ACCEPTED_FILE_TYPES then Some(ACCEPTED_FILE_TYPES[mimetype]) else None
  }

  /** The filter's test, `Object.keys(ACCEPTED_FILE_TYPES).includes(mimetype)`:
      membership among the allow-list's own keys. */
  predicate IsAccepted(mimetype: string)
    ensures IsAccepted(mimetype) <==> mimetype == "image/jpeg" || mimetype == "image/png"
  {
    mimetype in ACCEPTED_FILE_TYPES.Keys
  }

  /** The allow-list has exactly two entries, and the filter's test passes
      exactly the types the lookup maps. */
  lemma AllowList(mimetype: string)
    ensures ACCEPTED_FILE_TYPES.Keys == {"image/jpeg", "image/png"}
    ensures IsAccepted(mimetype) <==> Lookup(mimetype).Some?
    ensures IsAccepted(mimetype) <==> mimetype == "image/jpeg" || mimetype == "image/png"
  {
  }

  // ---------------------------------------------------------------------
  // Stored filename
  // ---------------------------------------------------------------------

  /** What the upload library tells the callbacks about the incoming file part. */
  datatype UploadedFile = UploadedFile(fieldname: string, originalname: string, mimetype: string)

  /** A value interpolated into a template literal: a missing key renders as `undefined`. */
  function Interpolate(v: Option<string>): (text: string)
    ensures v.Some? ==> text == v.value
    ensures text == "undefined" <==> v == None || v == Some("undefined")
  {
    match v
    case Some(s) => s
    case None => "undefined"
  }

  /** The name the storage engine's `filename` callback hands back:
      `<uuid>.<extension for the declared content type>`. */
  function StoredFilename(uuid: string, file: UploadedFile): (name: string)
    ensures file.mimetype == "image/jpeg" ==> name == uuid + ".jpeg"
    ensures file.mimetype == "image/png" ==> name == uuid + ".png"
    ensures !IsAccepted(file.mimetype) ==> name == uuid + ".undefined"
  {
    uuid + "." + Interpolate(Lookup(file.mimetype))
  }

  /** The name depends only on the identifier and the declared content
      type, never on the client's original filename or the form field. */
  lemma StoredFilenameIgnoresClientName(uuid: string, f1: UploadedFile, f2: UploadedFile)
    requires f1.mimetype == f2.mimetype
    ensures StoredFilename(uuid, f1) == StoredFilename(uuid, f2)
  {
  }

  /** Splits a name at its last '.', into the part before and the
      extension after; `None` when the name has no '.'. */
  function SplitAtLastDot(s: string): (r: Option<(string, string)>)
    ensures r.None? <==> '.' !in s
    ensures r.Some? ==> s == r.value.0 + "." + r.value.1 && '.' !in r.value.1
    decreases |s|
  {
    if |s| == 0 then None
    else if s[|s| - 1] == '.' then Some((s[..|s| - 1], ""))
    else
      match SplitAtLastDot(s[..|s| - 1])
      case None => None
      case Some((base, ext)) => Some((base, ext + [s[|s| - 1]]))
  }

  /** Splitting `base + "." + ext` at the last dot gives back `base` and
      `ext` whenever `ext` has no dot, whatever `base` contains. */
  lemma {:induction false} SplitAtLastDotOfJoin(base: string, ext: string)
    requires '.' !in ext
    ensures SplitAtLastDot(base + "." + ext) == Some((base, ext))
  {
    var s := base + "." + ext;
    if |ext| == 0 {
      assert s[..|s| - 1] == base;
    } else {
      var init := ext[..|ext| - 1];
      assert s[..|s| - 1] == base + "." + init;
      assert s[|s| - 1] == ext[|ext| - 1];
      SplitAtLastDotOfJoin(base, init);
      assert init + [ext[|ext| - 1]] == ext;
    }
  }

  /** The content type each stored extension stands for. */
  const EXTENSION_MIME_TYPES: map<string, string> := map["jpeg" := "image/jpeg", "png" := "image/png"]

  /** The extension map is one-to-one: the two maps are inverse to each other. */
  lemma ExtensionMapIsInvertible()
    ensures forall m :: m in ACCEPTED_FILE_TYPES ==>
      ACCEPTED_FILE_TYPES[m] in EXTENSION_MIME_TYPES && EXTENSION_MIME_TYPES[ACCEPTED_FILE_TYPES[m]] == m
    ensures forall e :: e in EXTENSION_MIME_TYPES ==>
      EXTENSION_MIME_TYPES[e] in ACCEPTED_FILE_TYPES && ACCEPTED_FILE_TYPES[EXTENSION_MIME_TYPES[e]] == e
  {
  }

  /** Reads a stored name back as its identifier and content type. */
  function ParseStoredFilename(name: string): Option<(string, string)>
  {
    match SplitAtLastDot(name)
    case None => None
    case Some((uuid, ext)) =>
      if ext in EXTENSION_MIME_TYPES then Some((uuid, EXTENSION_MIME_TYPES[ext])) else None
  }

  /** Every extension the filename callback can write is free of dots. */
  lemma ExtensionHasNoDot(file: UploadedFile)
    ensures '.' !in Interpolate(Lookup(file.mimetype))
  {
  }

  /** For an accepted type the stored name reads back as the identifier and
      the declared content type; for any other type it does not read back. */
  lemma StoredFilenameRoundTrip(uuid: string, file: UploadedFile)
    ensures IsAccepted(file.mimetype) ==>
      ParseStoredFilename(StoredFilename(uuid, file)) == Some((uuid, file.mimetype))
    ensures !IsAccepted(file.mimetype) ==>
      ParseStoredFilename(StoredFilename(uuid, file)) == None
  {
    ExtensionHasNoDot(file);
    SplitAtLastDotOfJoin(uuid, Interpolate(Lookup(file.mimetype)));
  }

  /** Two uploads get the same name only if they were given the same
      identifier: distinct identifiers give distinct stored files. */
  lemma StoredFilenameDeterminesUuid(u1: string, f1: UploadedFile, u2: string, f2: UploadedFile)
    requires StoredFilename(u1, f1) == StoredFilename(u2, f2)
    ensures u1 == u2
    ensures IsAccepted(f1.mimetype) <==> IsAccepted(f2.mimetype)
    ensures IsAccepted(f1.mimetype) ==> f1.mimetype == f2.mimetype
  {
    ExtensionHasNoDot(f1);
    ExtensionHasNoDot(f2);
    SplitAtLastDotOfJoin(u1, Interpolate(Lookup(f1.mimetype)));
    SplitAtLastDotOfJoin(u2, Interpolate(Lookup(f2.mimetype)));
  }

  // ---------------------------------------------------------------------
  // The upload filter
  // ---------------------------------------------------------------------

  /** One invocation of the filter's callback: its first argument (the
      error, `null` here), whether the file is to be kept, and the third
      argument when one is passed. */
  datatype FilterCall = FilterCall(error: Option<Error>, acceptFile: bool, extra: Option<Error>)

  /** `cb(null, false, new APIError("This mimetype is not allowed.", 400))` */
  const REJECT_CALL: FilterCall := FilterCall(None, false, Some(APIError(MIMETYPE_NOT_ALLOWED, 400)))

  /** `cb(null, true)` */
  const ACCEPT_CALL: FilterCall := FilterCall(None, true, None)

  /** The callback handed to the filter; it records every invocation. */
  class FilterCallback {
    var calls: seq<FilterCall>

    constructor ()
      ensures calls == []
    {
      calls := [];
    }

    method Invoke(call: FilterCall)
      modifies this
      ensures calls == old(calls) + [call]
    {
      calls := calls + [call];
    }
  }

  /** The ordered invocations the filter makes for a declared content type.
      No return follows the rejecting call, so a disallowed type is
      called back twice: rejected, then accepted. */
  function FilterCalls(mimetype: string): (calls: seq<FilterCall>)
    ensures mimetype == "image/jpeg" || mimetype == "image/png" ==> calls == [ACCEPT_CALL]
    ensures mimetype != "image/jpeg" && mimetype != "image/png" ==> calls == [REJECT_CALL, ACCEPT_CALL]
  {
    (if IsAccepted(mimetype) then [] else [REJECT_CALL]) + [ACCEPT_CALL]
  }

  /** The filter: rejects a disallowed type through the callback, then falls
      through and accepts. */
  method FileFilter(file: UploadedFile, cb: FilterCallback)
    modifies cb
    ensures cb.calls == old(cb.calls) + FilterCalls(file.mimetype)
  {
    if !IsAccepted(file.mimetype) {
      cb.Invoke(FilterCall(None, false, Some(APIError(MIMETYPE_NOT_ALLOWED, 400))));
    }
    cb.Invoke(FilterCall(None, true, None));
  }

  /** Whatever the content type, the filter's last word is "keep the file",
      and its first word is "keep the file" exactly when the type is allowed. */
  lemma FilterLastCallAccepts(mimetype: string)
    ensures |FilterCalls(mimetype)| > 0
    ensures FilterCalls(mimetype)[|FilterCalls(mimetype)| - 1] == ACCEPT_CALL
    ensures FilterCalls(mimetype)[0].acceptFile <==> Lookup(mimetype).Some?
  {
  }

  /** The filter as evidently intended: one invocation, rejecting a
      disallowed type and accepting an allowed one. */
  function IntendedFilterCalls(mimetype: string): (calls: seq<FilterCall>)
    ensures |calls| == 1
    ensures calls[0].acceptFile <==> mimetype == "image/jpeg" || mimetype == "image/png"
  {
    if IsAccepted(mimetype) then [ACCEPT_CALL] else [REJECT_CALL]
  }

  /** The source's filter and the intended one agree on allowed types and
      on the first call for disallowed ones; for a disallowed type the
      source makes one call more, which accepts the file. */
  lemma FilterDiffersFromIntended(mimetype: string)
    ensures FilterCalls(mimetype)[0] == IntendedFilterCalls(mimetype)[0]
    ensures IsAccepted(mimetype) <==> FilterCalls(mimetype) == IntendedFilterCalls(mimetype)
    ensures !IsAccepted(mimetype) ==> FilterCalls(mimetype) == IntendedFilterCalls(mimetype) + [ACCEPT_CALL]
  {
  }

  /** A concrete input showing the double callback. */
  lemma PlainTextIsCalledBackTwice()
    ensures FilterCalls("text/plain") == [REJECT_CALL, ACCEPT_CALL]
    ensures IntendedFilterCalls("text/plain") == [REJECT_CALL]
  {
  }

  // ---------------------------------------------------------------------
  // Responses
  // ---------------------------------------------------------------------

  datatype Image = Image(url: string)
  datatype Data = Data(image: Image)

  /** The JSON body: the success envelope or the error envelope. */
  datatype Body =
    | SuccessBody(status: string, data: Data)
    | ErrorBody(status: string, message: string)

  datatype Response = Response(statusCode: int, body: Body)

  /** The message of the `TypeError` thrown when the route reads
      `req.file.filename` and the upload library left `req.file` unset. */
  const MISSING_FILE_MESSAGE: string := "Cannot read properties of undefined (reading 'filename')"

  /** The upload route's reply. `storedFilename` is `req.file.filename`, or
      `None` when the upload library did not set `req.file` (no `image`
      part, or a file the filter skipped). With a file: the default status
      and a success envelope whose URL is the host URL, a slash and the
      filename. Without one: the property read throws, and the central
      handler answers the resulting error with a 500 error envelope. */
  function UploadResponse(hostUrl: string, storedFilename: Option<string>): (r: Response)
    ensures storedFilename.Some? ==>
      && r.statusCode == 200
      && r.body.SuccessBody? && r.body.status == "success"
      && |r.body.data.image.url| == |hostUrl| + 1 + |storedFilename.value|
      && r.body.data.image.url[..|hostUrl|] == hostUrl
      && r.body.data.image.url[|hostUrl|] == '/'
      && r.body.data.image.url[|hostUrl| + 1..] == storedFilename.value
    ensures storedFilename.None? ==>
      && r.statusCode == 500
      && r.body == ErrorBody("error", MISSING_FILE_MESSAGE)
  {
    match storedFilename
    case Some(filename) => Response(200, SuccessBody("success", Data(Image(hostUrl + "/" + filename))))
    case None => HandleError(OtherError(MISSING_FILE_MESSAGE))
  }

  /** The central error handler: an `APIError` keeps its own status code,
      anything else becomes 500; the body is always the error envelope
      with the error's message. */
  function HandleError(err: Error): (r: Response)
    ensures r.body.ErrorBody? && r.body.status == "error" && r.body.message == err.message
    ensures err.APIError? ==> r.statusCode == err.statusCode
    ensures err.OtherError? ==> r.statusCode == 500
  {
    var statusCode := if err.APIError? then err.statusCode else 500;
    Response(statusCode, ErrorBody("error", err.message))
  }

  /** An `APIError` built from a message and a status code reaches the
      client with that message and that status code unchanged. The first
      two clauses hold by construction of the datatype; the third is the
      handler's contract at this particular error. */
  lemma APIErrorKeepsMessageAndStatus(message: string, statusCode: int)
    ensures APIError(message, statusCode).message == message
    ensures APIError(message, statusCode).statusCode == statusCode
    ensures HandleError(APIError(message, statusCode)) == Response(statusCode, ErrorBody("error", message))
  {
  }

  /** The handler never answers with a success envelope, and a status other
      than 500 can only come from an `APIError`. */
  lemma HandleErrorStatus(err: Error)
    ensures !HandleError(err).body.SuccessBody?
    ensures HandleError(err).statusCode != 500 ==> err.APIError?
    ensures HandleError(err).statusCode == 500 <==> err.OtherError? || err.statusCode == 500
  {
  }

  /** The error object the filter builds for a disallowed type, were it to
      reach the handler, gives a 400 with the not-allowed message. */
  lemma FilterErrorResponse(mimetype: string)
    requires !IsAccepted(mimetype)
    ensures FilterCalls(mimetype)[0].extra.Some?
    ensures HandleError(FilterCalls(mimetype)[0].extra.value)
      == Response(400, ErrorBody("error", "This mimetype is not allowed."))
  {
  }

  /** An upload of an allowed type stored under identifier `uuid` is
      answered with `<host>/<uuid>.jpeg` or `<host>/<uuid>.png`, and the part
      after the host reads back as that identifier and content type. */
  lemma UploadUrl(hostUrl: string, uuid: string, file: UploadedFile)
    requires IsAccepted(file.mimetype)
    ensures var url := UploadResponse(hostUrl, Some(StoredFilename(uuid, file))).body.data.image.url;
      && url == hostUrl + "/" + uuid + "." + ACCEPTED_FILE_TYPES[file.mimetype]
      && ParseStoredFilename(url[|hostUrl| + 1..]) == Some((uuid, file.mimetype))
  {
    StoredFilenameRoundTrip(uuid, file);
  }
}
