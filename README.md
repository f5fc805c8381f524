# fileup upload server, modelled in Dafny

fileup is a gRPC file-upload server written in Go. A client opens a
client-streaming `FileUpload` call and sends a file-info message, then the
file as a stream of chunks. The server does the following:

- names the upload `<uuid><fileType>` and opens it for appending in the upload directory;
- checks the stream's context before every chunk receive;
- stops with `InvalidArgument` when the running size exceeds the configured maximum;
- appends each chunk through the repository;
- answers with the stored name and the size;
- closes the file as a deferred step.

When the stored name has the JSON extension, closing the file also starts
post-processing. This reads the upload as a JSON array of game entries and
rewrites every entry as follows:

- it empties each text field whose first letter is a vowel;
- it adds a constant to each even integer field;
- it writes the new array to a fresh `<uuid>.json` file in a second directory.

The model has three modules, one per layer of the server, plus a small helper module:

- `Repo` (repo.dfy) is the repository: a `Registry` class whose fields are
  the upload directory, the set of names with an open handle, and the
  processed directory. A ghost `history` field logs every Init, SaveChunk and Close.
  The per-entry JSON rewrite is pure functions.
- `Service` (service.dfy) is the service layer. It covers the stored name,
  `filepath.Ext`, and the close-time dispatch decision.
- `Server` (server.dfy) is the handler. The receive loop is specified by the
  pure function `Ingest` over the sequence of things the stream delivers
  (`Step`: context state, Recv outcome, disk outcome). `FileUpload`,
  `Session`, `ReceiveChunks` and `SaveNext` are methods proved against
  `Ingest`, and the lemmas about `Ingest` state what the loop guarantees.
- `Wrappers` (wrappers.dfy) holds `Option` and `Result`.

Outcomes decided outside the program are parameters of the operations:

- whether `os.OpenFile` succeeds;
- whether a `Write` succeeds;
- the uuid, where `None` means generation failed;
- the JSON decoder's element sequence and `json.Marshal`.

The constants `MaxFileSize`, `Increment` and `JSONExt` are parameters too.

## Model

| member | source | states |
|---|---|---|
| Repo.SkipEntry | repo/repo.go:219-237 | The entry is skipped exactly when its first byte is an ASCII vowel in either case. The empty string is never skipped. The loop over the skip list agrees with this set-based characterisation. |
| Repo.ShouldIncrement | repo/repo.go:239-241 | Go's truncated `val%2 == 0` holds exactly for the even integers, negative ones and zero included. |
| Repo.TransformEntry | repo/repo.go:167-192 | Each text field keeps its value if and only if it does not start with a vowel; otherwise it becomes empty. Each integer field gains the increment exactly when it is even. |
| Repo.TransformKeepsOrder | repo/repo.go:159-196 | The decode loop succeeds if and only if every array element decodes. It then yields one rewritten entry per element, in input order. |
| Repo.TransformFailsAtFirst | repo/repo.go:160-165 | A run aborts with the decode error of the first malformed element. |
| Repo.Registry.constructor | repo/repo.go:58-65 | A new repository has no open handles over the two given directories. |
| Repo.Registry.Init | repo/repo.go:67-94 | A name that is already open is left alone. Otherwise the file is opened in append mode: created empty if missing, its content kept if present. An open failure is reported with the name and changes nothing. |
| Repo.Registry.Close | repo/repo.go:96-110 | The name loses its handle, an unknown name included. Both directories are unchanged. |
| Repo.Registry.SaveChunk | repo/repo.go:112-127 | A name without a handle gives "not found" and a failed write gives a save error; neither changes a file. Otherwise the chunk is appended to exactly that file. |
| Repo.Registry.ProcessJSON | repo/repo.go:129-211 | Error order is: missing source, then name generation, then create failure. The output file is created before decoding. A decode or marshal or write failure leaves that file as created. On success, the marshalled transform of the decoded array is appended to `<id>.json` and that name is returned. Uploads and handles are untouched. |
| Service.Ext | service/service.go:59 | `filepath.Ext`: the result is a suffix of the path. A non-empty result is '.' followed by no '.' or '/'. An empty result means every '.' is followed by a later '/'. |
| Service.ExtOfStoredName | service/service.go:40 | For a file type that is itself an extension, the extension of `<id><fileType>` is that file type, whatever the id. |
| Service.DispatchFollowsFileType | service/service.go:54-62 | For such a file type, JSON post-processing is dispatched exactly when the declared type is the JSON extension. |
| Service.UploadService.constructor | service/service.go:27-32 | The service wraps the given repository. |
| Service.UploadService.Init | service/service.go:34-48 | A failed uuid gives a name-generation error without touching the repository. Otherwise the name is `<id><fileType>`, one registry Init is made, and its error is passed on with an empty name. |
| Service.UploadService.SaveChunk | service/service.go:50-52 | The repository's SaveChunk outcome, unchanged. |
| Service.UploadService.Close | service/service.go:54-62 | The registry entry is always closed. Post-processing is dispatched exactly when the name's extension is the JSON extension. |
| Server.SessionClosesOnce | api/grpc/server/server.go:47-51 | An upload whose Init succeeded makes registry calls in the order Init, saves, Close. Close is called exactly once, as the last call. |
| Server.IngestSavesInOrder | api/grpc/server/server.go:53-89 | Every chunk handed to SaveChunk comes from a message received while the context was live. The chunks are saved in arrival order, starting at the first step, with none skipped. |
| Server.IngestWithinLimit | api/grpc/server/server.go:78-85 | The size check precedes the write, so the chunks handed to SaveChunk never total more than the limit. At EOF the running size is exactly their total. |
| Server.PersistedWithinLimit | api/grpc/server/server.go:78-88 | However the upload ends, the bytes that reach the file never exceed the limit: they are the saves, less a failed last one. |
| Server.IngestExitReason | api/grpc/server/server.go:53-89 | Each exit status is tied to the step it stops at: Canceled or DeadlineExceeded from `contextError`, EOF, a Recv error, too large, or a failed write. Both directions are proved where the step alone decides. |
| Server.IngestCleanPrefix | api/grpc/server/server.go:53-89 | For any run of such steps within the limit, the loop saves exactly their chunks in order. The rest of the stream then decides the outcome. |
| Server.ReportedSize | api/grpc/server/server.go:78-95 | With a limit below 2^32, the `uint32` size in a completed upload's reply equals the number of bytes written. |
| Server.HelloUpload | api/grpc/server/server.go:53-95 | Scenario: chunks "hel" and "lo" then EOF complete with both chunks saved, size 5 and file content "hello". |
| Server.UploadServer.constructor | api/grpc/server/server.go:26-31 | The handler wraps the given service. |
| Server.UploadServer.FileUpload | api/grpc/server/server.go:34-105 | A failed first Recv gives Unknown and nothing else. A failed Init gives Internal, with no chunk received and no Close. Otherwise see the list below this table. |
| Server.UploadServer.Session | api/grpc/server/server.go:51-105 | After Init succeeds: the loop's saves, then exactly one Close. The reply and status follow the loop's exit and the send outcome. |
| Server.UploadServer.ReceiveChunks | api/grpc/server/server.go:53-89 | The receive loop ends with the status `Ingest` gives. It makes exactly `Ingest`'s SaveChunk calls and appends exactly the chunks that reached disk. |
| Server.UploadServer.SaveNext | api/grpc/server/server.go:84-88 | One SaveChunk of the loop: the call is logged. The chunk extends the session's file exactly when the write succeeds. |

When Init succeeds, `Server.UploadServer.FileUpload` guarantees all of the following:

- the registry calls are Init, then `Ingest`'s saves, then one Close;
- the file gains exactly the chunks written;
- the handle is released;
- the reply is (stored name, `uint32` size) exactly when the loop reached EOF;
- the status is OK or the send error when the loop reached EOF, and the loop's error otherwise;
- the dispatch follows the name's extension.

## Left out

- gRPC transport, protobuf and the stream object are replaced by the values they deliver. These are the first Recv's outcome, one `Step` per loop iteration, and whether `SendAndClose` succeeds.
- Only streams that end are modelled: the step sequence must end with a step at which the loop stops (EOF, an error or a dead context). The loop has no iteration bound, and empty chunks never reach the size limit. So a client that never ends the stream and has no deadline keeps the session and its handle open for ever. Close-exactly-once holds for streams that end.
- Logging, including `handleError`'s log line and every `log.Printf`, is left out. It has no observable effect on results.
- The mutex `fileDataMu`, the detached goroutine started by `Close`, and its one-second timeout are left out. The model is sequential. `Close` reports whether post-processing is dispatched, and `ProcessJSON` is modelled as its own operation rather than run from `Close`.
- `createdAt` and the `copier.Copy` of the handle map are left out. Neither is ever read.
- The file system is modelled as two maps from name to content. Open and write failures are boolean parameters, and a failed write is modelled as writing nothing. Partial writes are not modelled.
- `Repo.Registry.ProcessJSON`: a source that cannot be opened is modelled as a name missing from the upload directory. Other open errors are not distinguished. The closing of the two files, whose errors are only logged, is left out.
- `encoding/json` is left out. The decoder is a parameter yielding the array's elements in order, and `json.Marshal` is a parameter that may fail. An error from the initial `dec.Token()`, which the source ignores, is not modelled.
- `uuid.NewRandom` is a parameter: `Some(id)` or `None` for failure.
- The `constants` package is not part of this model. `MaxFileSize`, `Increment` and `JSONExt` are parameters of the operations that use them.
- `Repo.TransformEntry`: integers are unbounded, so Go's 64-bit `int` wrap-around when adding the increment to a value near the maximum is not modelled.
- `Server.UploadServer.FileUpload`: the running `fileSize` is an unbounded integer, not an `int64`. The sum of received chunk lengths cannot reach 2^63, so nothing is lost.
- `Server.UploadServer.Session`: the source sends the reply before the deferred `Close` runs, and no contract states that order.
- `Service.UploadService.Close`: the source closes the registry entry before it starts post-processing. `dispatched` is a returned flag, not an event, so no contract states that order.
- The uploaded file's original name (`GetFileName`) is only logged, so it is left out.
- `Service.Ext` follows `filepath.Ext` with '/' as the only separator.
- Names, paths and extensions are character strings. JSON text fields are byte strings.
- The client and server bootstrap programs are not part of this model.
