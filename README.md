# Image upload server — model of the request-handling logic

The server accepts one authenticated image upload per `POST /`. It stores the file under a
generated name and answers with a JSON envelope holding the public URL. It owns only a thin
layer of logic, and `image_server.dfy` (module `ImageServer`) models that layer:

- the content-type allow-list `ACCEPTED_FILE_TYPES`. It maps `image/jpeg` to `jpeg` and
  `image/png` to `png`. A missing key is `None`, where JavaScript yields `undefined`;
- the storage engine's `filename` callback, which builds `<uuid>.<ext>`. The UUID is a
  parameter. A type with no entry renders as `<uuid>.undefined`, the way a JavaScript
  template literal renders `undefined`;
- the upload filter `fileFilter`, modelled as a method that invokes a recording callback
  object. The model keeps the source's fall-through literally: a disallowed type is called
  back twice, first rejected and then accepted;
- the file-size limit passed to the upload library: `10 * MB` with `MB = 1000000`;
- the success envelope `{status: "success", data: {image: {url}}}` with
  `url = HOST_URL + "/" + filename`. When the upload library leaves `req.file` unset,
  reading `req.file.filename` throws, and the error handler answers 500;
- the `APIError` type and the central error handler. An `APIError` keeps its status code,
  any other error gives 500, and the body is always `{status: "error", message}`.

A last-dot split of the stored name (`SplitAtLastDot`, `ParseStoredFilename`) is the inverse
that the filename is checked against. It shows that the identifier and the content type can
be read back from the name. It also shows that distinct identifiers always give distinct
names, whatever the identifier's characters.

## Model

| member | source | states |
|---|---|---|
| ImageServer.UploadLimits | src/index.js:13-41 | the per-file size limit is 10 × 1,000,000 = 10,000,000 bytes, a decimal and not a binary ten megabytes |
| ImageServer.Lookup | src/index.js:15-18 | the lookup gives `jpeg` exactly for `image/jpeg`, `png` exactly for `image/png`, and nothing for every other type |
| ImageServer.IsAccepted | src/index.js:30 | the filter's `Object.keys(...).includes` test holds exactly for `image/jpeg` and `image/png` |
| ImageServer.AllowList | src/index.js:15-30 | the allow-list's key set is exactly {image/jpeg, image/png}; the filter's `Object.keys(...).includes` test passes exactly the types the lookup maps |
| ImageServer.ExtensionMapIsInvertible | src/index.js:15-18 | no two accepted types share an extension: the extension map is inverse to the extension-to-type map |
| ImageServer.Interpolate | src/index.js:23 | a present value is written as itself; the text `undefined` comes out exactly for a missing value or the value `undefined` itself |
| ImageServer.StoredFilename | src/index.js:22-24 | the name is `<uuid>.jpeg` for `image/jpeg`, `<uuid>.png` for `image/png`, and `<uuid>.undefined` for any type outside the allow-list |
| ImageServer.StoredFilenameIgnoresClientName | src/index.js:22-24 | two files with the same declared type get the same name from the same UUID, whatever their original filenames or field names |
| ImageServer.SplitAtLastDot | src/index.js:23 | the split gives `None` exactly when there is no dot; otherwise the parts rejoin with a dot to the whole name, and the extension has no dot |
| ImageServer.SplitAtLastDotOfJoin | src/index.js:23 | splitting `base + "." + ext` at its last dot gives back `(base, ext)` whenever `ext` has no dot |
| ImageServer.ExtensionHasNoDot | src/index.js:23 | every extension the template can write (`jpeg`, `png`, `undefined`) is free of dots |
| ImageServer.StoredFilenameRoundTrip | src/index.js:22-24 | for an accepted type the stored name parses back to the UUID and the declared type; for any other type it does not parse as a stored image |
| ImageServer.StoredFilenameDeterminesUuid | src/index.js:22-24 | equal stored names imply equal UUIDs, both types accepted or neither, and equal types when accepted; distinct UUIDs give distinct files |
| ImageServer.FilterCallback.Invoke | src/index.js:31-34 | one call of the filter's callback appends exactly that invocation to the record |
| ImageServer.FilterCalls | src/index.js:28-35 | an allowed type gets exactly one call `(null, true)`; any other type gets exactly two calls in order: `(null, false, APIError("This mimetype is not allowed.", 400))`, then `(null, true)` |
| ImageServer.FileFilter | src/index.js:28-35 | running the filter appends to the callback's record exactly the calls `FilterCalls` gives for the declared type |
| ImageServer.FilterLastCallAccepts | src/index.js:30-34 | the filter's last call always accepts the file, because the `if` body does not return; its first call accepts exactly when the lookup maps the type |
| ImageServer.IntendedFilterCalls | src/index.js:30-34 | the corrected filter makes exactly one call, and that call accepts exactly the two allowed types |
| ImageServer.FilterDiffersFromIntended | src/index.js:30-34 | the source's filter and the corrected one agree on allowed types and on the first call; for a disallowed type the source adds a trailing accepting call |
| ImageServer.PlainTextIsCalledBackTwice | src/index.js:30-34 | for `text/plain`, the source calls back to reject and then to accept; the corrected filter only rejects |
| ImageServer.UploadResponse | src/index.js:55-74 | with `req.file` set, the reply has the default status 200 and a success envelope whose URL is the host URL, then `/`, then the filename, and nothing else; with `req.file` unset, reading `req.file.filename` throws and the handler answers 500 with the error envelope |
| ImageServer.HandleError | src/index.js:68-74 | the body is the error envelope with the error's own message; an `APIError` gives its own status code, any other error gives 500 |
| ImageServer.APIErrorKeepsMessageAndStatus | src/index.js:6-11 | an `APIError` built from a message and a status code carries both unchanged, and the handler answers with exactly them |
| ImageServer.HandleErrorStatus | src/index.js:69 | the handler never gives a success envelope; the status is 500 exactly for non-`APIError`s and for `APIError`s whose own code is 500 |
| ImageServer.FilterErrorResponse | src/index.js:31 | the error object built for a disallowed type would become a 400 with the message "This mimetype is not allowed." at the handler |
| ImageServer.UploadUrl | src/index.js:22-24 | for an accepted type the URL is `<host>/<uuid>.<ext>`, and the part after the host parses back to the UUID and the declared type |

## Left out

- HTTP Basic authentication (the `basicAuth` middleware): how credentials are parsed and compared, and the 401 challenge, belong to a library whose code is not modelled.
- Multipart parsing, the disk write to the upload directory, and the enforcement of the size limit all happen inside the upload library. The model fixes only the limit value that is passed in.
- What the upload library does with the filter's callbacks. The model does not know whether the library reads a third argument, or what it does on a second call. As a result, the model claims nothing about what is stored or returned for a disallowed type. `UploadResponse` takes whether the library set `req.file` as an input. `FilterErrorResponse` only says what the handler would produce if the filter's error reached it.
- UUID generation is randomness: the identifier is a parameter, and no uniqueness of generated identifiers is claimed. The model only proves that distinct identifiers give distinct names.
- Static file serving, `app.listen`, console logging and the environment reads (`UPLOAD_PATH`, `BA_USERNAME`, `BA_PASSWORD`, `HOST_URL`) are I/O and ambient configuration. The host URL is a plain parameter.
- JSON serialisation and the HTTP transport. The envelopes are datatypes, not byte strings.
- Lookup: JavaScript also finds inherited properties through the prototype chain, so a declared type such as `constructor` would give a non-`undefined` value in the filename template. The model treats the object only as its own two keys. The filter's `Object.keys` test sees only those own keys too, so it is not affected.
- UploadResponse: the source's `HOST_URL` could be unset, which makes the URL start with `undefined`. The model takes the host URL as a string that is always present.
- UploadResponse: the exact message of the `TypeError` thrown for a missing `req.file` comes from the JavaScript engine and differs between versions. The model fixes one wording (`MISSING_FILE_MESSAGE`); the 500 status and the error envelope do not depend on it.

## Findings

| source | as written | input that shows it | evidently intended | confidence | as-written member | corrected member |
|---|---|---|---|---|---|---|
| src/index.js:30-34 | no `return` after the rejecting callback, so execution falls through to `cb(null, true)` | declared type `text/plain`: calls `(null, false, APIError(...))` then `(null, true)` | one rejecting call and no further processing of a disallowed type | high, not executed | ImageServer.PlainTextIsCalledBackTwice | ImageServer.IntendedFilterCalls |
