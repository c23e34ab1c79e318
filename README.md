# go-textile: the cafe pin endpoint and snapshot search options, in Dafny

This project models two HTTP handlers of go-textile and proves what they promise.

- **The cafe's pin handler** (`Cafe.pin`). It takes the bearer token from the `Authorization` header and maps the JWT verifier's verdict to 401, 403 or silence. It then dispatches on the exact `Content-Type`. For `application/gzip` it reads a tar archive into a virtual IPFS directory, rejecting directory entries and skipping entries that are neither files nor directories, then finalises and pins the directory. For `application/octet-stream` it pins the raw body. On success it answers 201 with the content id's hash.
- **The snapshot search handler** (`api.searchThreadSnapshots`). It derives the query options from the request options: the `wait` budget (default 5, passed through `int32`), the fixed `Local=false` and `Limit=-1`, and the live-events flag. It routes an unreadable options header to 500 and a search that fails to start to 400.

Files:

- `wrappers.dfy`: `Option` and `Result`.
- `strings.dfy` (module `Strings`): Go's `strings.Split` on a one-character separator, its inverse `Join`, and the round-trip lemmas the header parsing relies on.
- `cafe_pin.dfy` (module `Cafe`): requests, responses, the foreign outcomes (`Env`) and the calls the handler makes (`Effects`).
  - `Handle` and `ScanArchive` specify the handler as functions.
  - `Pin` and `PinArchive` are the handler itself. `PinArchive` is a method whose loop over the tar reads fills a `DirectoryBuilder` object.
  - `Pin` is proved equal to `Handle`, and `PinArchive` to `ArchivePath`, the gzip branch of `Handle`.
- `cafe_pin_properties.dfy` (module `CafeProperties`): the handler's promises as lemmas about `Handle`.
- `snapshots.dfy` (module `Snapshots`): the option derivation as functions with lemmas.

Foreign calls are inputs of the model:

- JWT validation is an outcome enum.
- `gzip.NewReader` is an optional error.
- The tar reader is a sequence of `Next` results; reads past its end give EOF.
- Each `AddFileToDirectory` answer is carried on its tar header.
- `GetNode`, `PinDirectory` and `PinData` each have one outcome.
- `readOpts`, `strconv.Atoi` and the network search are parameters.

Behaviour as written that a reader might not expect:

- The doc comment at `core/api_snapshots.go:16` says the wait is at most 10 seconds. The handler applies no clamp, so `wait=60` and `wait=-1` reach the query as they are (`Snapshots.WaitBeyondDocumentedMaximum`). A clamp inside `node.SearchThreadSnapshots` cannot be ruled out, because that code is not part of this model, so the model does not call this a bug.
- A tar read error is answered with 500. Only a gzip header failure, a directory entry and an unknown content type get 400.
- What happens when two archive entries have the same name is up to the IPFS directory builder. The model records only the names added, in order.

## Model

| member | source | states |
|---|---|---|
| `Strings.Split` | cafe/pin.go:35 | splitting on a space always gives at least one field, and exactly one more field than there are spaces |
| `Strings.SplitHasTwoFields` | cafe/pin.go:35-36 | the header has two or more fields if and only if it contains a space |
| `Strings.SplitPiecesAreSeparatorFree` | cafe/pin.go:35 | no field contains a space |
| `Strings.JoinSplit` | cafe/pin.go:35 | joining the fields with spaces gives back the header |
| `Strings.SplitJoin` | cafe/pin.go:35 | splitting a join of space-free fields gives back those fields |
| `Strings.SplitAfterWord` | cafe/pin.go:35-40 | a space-free scheme word followed by a space is split off as the first field, whatever follows |
| `Strings.SplitFirstPiece` | cafe/pin.go:35-40 | the first field is the text before the first space |
| `Cafe.Rejection` | cafe/pin.go:43-51 | a failed validation yields an error body without an id, and no response exactly for errors other than NoToken, Expired and Invalid |
| `Cafe.AbortResponse` | cafe/pin.go:72-87 | an entry that aborts the loop is answered 400 or 500 with an error body and no id |
| `Cafe.ScanArchive` | cafe/pin.go:66-91 | the tar loop reads at least once, and an aborted loop answers 400 or 500 with an error body and no id |
| `Cafe.RegularNamesSnoc` | cafe/pin.go:82-83 | reading one more entry adds exactly that entry's name if it is a regular file, after the earlier names |
| `Cafe.ScanStopsAt` | cafe/pin.go:66-91 | the first entry that does not let the loop go on decides how it ends: the regular files before it were added once each in archive order, it was the last read, and the loop aborts with its error unless it is EOF |
| `Cafe.ArchivePathAbortsAt` | cafe/pin.go:66-91 | when an entry aborts the loop, the gzip branch answers with that entry's error and never finalises or pins |
| `Cafe.ArchivePathEndsAt` | cafe/pin.go:66-105 | when the loop reaches EOF, the gzip branch finalises and pins a directory holding exactly the regular files read |
| `Cafe.DirectoryBuilder.constructor` | cafe/pin.go:58 | a new virtual directory is empty and not finalised |
| `Cafe.DirectoryBuilder.AddFile` | cafe/pin.go:83-87 | a successful add appends the name; a failed add reports the store's error and leaves the directory unchanged |
| `Cafe.DirectoryBuilder.GetNode` | cafe/pin.go:94-99 | finalising returns the store's root or error, marks the directory final and leaves its names unchanged |
| `Cafe.Pin` | cafe/pin.go:31-128 | the handler's response and calls are exactly those of the function `Handle` |
| `Cafe.PinArchive` | cafe/pin.go:57-105 | the gzip branch's loop adds and reads exactly as `ScanArchive` says, then finalises and pins as `ArchivePath` says |
| `CafeProperties.MissingTokenField` | cafe/pin.go:35-39 | a header without a space (empty, or "Bearer" alone) gives 401 unauthorized and no call at all |
| `CafeProperties.ValidatedToken` | cafe/pin.go:40-43 | the token handed to the verifier is the header's second field, and none is handed over when there is no second field |
| `CafeProperties.TokenIsSecondField` | cafe/pin.go:35-40 | the token is exactly the second field; the scheme word is not checked and further fields are ignored |
| `CafeProperties.ValidationFailure` | cafe/pin.go:43-51 | NoToken or Expired give 401, Invalid gives 403, any other error gives no response, and none of them calls the store |
| `CafeProperties.InvalidContentType` | cafe/pin.go:115-118 | any content type other than the two exact strings gives 400 "invalid content-type" with no store call |
| `CafeProperties.StoreOnlyAfterAuthAndDispatch` | cafe/pin.go:35-56 | a store call happens only after a valid token and a recognised content type |
| `CafeProperties.GzipFailure` | cafe/pin.go:60-65 | a gzip reader failure gives 400 with its text, no tar read and no pin |
| `CafeProperties.ScanCompleted` | cafe/pin.go:67-71 | a loop that did not abort stopped at an EOF, and every entry before it let the loop go on |
| `CafeProperties.ScanAbortsAtDirectory` | cafe/pin.go:77-81 | a directory entry before any EOF makes the loop abort |
| `CafeProperties.DirectoryEntryAborts` | cafe/pin.go:78-81 | the first directory entry gives 400 "directories are not supported" after adding only the earlier files, with no finalise or pin |
| `CafeProperties.NoPinAfterDirectory` | cafe/pin.go:78-104 | with a directory entry before every EOF, the directory is never finalised or pinned and a gzip request never gets 201 |
| `CafeProperties.ReadErrorAborts` | cafe/pin.go:72-76 | a tar read error other than EOF gives 500 with its text and stops the loop |
| `CafeProperties.AddFileFailureAborts` | cafe/pin.go:82-87 | a failed file add gives 500 with its text and stops the loop, without that file among the added names |
| `CafeProperties.ArchiveReadToEnd` | cafe/pin.go:66-105 | an archive read to EOF adds exactly its regular files in order, finalises, and answers 500 on a GetNode or PinDirectory error, otherwise 201 with the root's id |
| `CafeProperties.ScanSkipsOtherEntries` | cafe/pin.go:88-89 | inserting an entry of another type changes neither the names added nor how the loop ends, only the read count |
| `CafeProperties.ArchivePathIgnoresReads` | cafe/pin.go:66-105 | the gzip branch's response and calls depend on the tar loop only through the names it added and how it ended |
| `CafeProperties.SkippedEntryChangesNothing` | cafe/pin.go:88-89 | inserting an entry of another type leaves the response and every store call unchanged |
| `CafeProperties.RawPin` | cafe/pin.go:107-114 | the raw body is pinned once with no tar read; 201 with the PinData id, or 500 with its error |
| `CafeProperties.ResponseShape` | cafe/pin.go:17-29 | only an unrecognised validation error gives no response; every response sets exactly one of id and error, sets id exactly on 201, and uses one of five statuses |
| `CafeProperties.CreatedCarriesPinnedId` | cafe/pin.go:120-127 | a 201 carries the finalised root's id after the archive was read to EOF and pinned, or the PinData id on the raw path |
| `Snapshots.ToInt32` | core/api_snapshots.go:39 | the int32 conversion gives a 32-bit value congruent to its input modulo 2^32 |
| `Snapshots.ToInt32Unique` | core/api_snapshots.go:39 | that value is the only 32-bit value congruent to the input |
| `Snapshots.ToInt32InRange` | core/api_snapshots.go:39 | values already in 32-bit range are unchanged |
| `Snapshots.ReadOptsFailure` | core/api_snapshots.go:22-26 | unreadable options give 500 with the error and no search |
| `Snapshots.FixedQueryOptions` | core/api_snapshots.go:33-40 | the issued query is for the account address with Local=false and Limit=-1, whatever the options hold |
| `Snapshots.WaitDefault` | core/api_snapshots.go:28-31 | the wait is 5 when the value does not parse or the key is missing |
| `Snapshots.WaitNotClamped` | core/api_snapshots.go:28-39 | a parsed wait in 32-bit range reaches the query unchanged; outside that range it wraps modulo 2^32 |
| `Snapshots.WaitBeyondDocumentedMaximum` | core/api_snapshots.go:28-39 | wait=60 and wait=-1 reach the query as 60 and -1 |
| `Snapshots.SearchFailure` | core/api_snapshots.go:42-46 | a search that fails to start gives 400 with its text and no stream |
| `Snapshots.LiveIffEventsTrue` | core/api_snapshots.go:48 | a started search streams live if and only if the events option is exactly "true" |
| `Snapshots.OnlyExactTrueIsLive` | core/api_snapshots.go:48 | a missing events key, "True" and "1" all select buffered mode |

## Left out

- gzip decompression and tar header decoding are library code. They are modelled only as an optional gzip error and a sequence of `Next` results with three entry kinds.
- The IPFS store is foreign code: the unixfs directory builder, `ipfs.AddFileToDirectory`, `ipfs.PinDirectory`, `ipfs.PinData`, CIDs and their base58 rendering. Their answers are inputs, and an id is an opaque hash string.
- What the directory builder does with a repeated file name is not visible, so no overwrite rule is stated.
- Whether a failed `AddFileToDirectory` left a partial entry is not visible either. The model treats a failed add as adding nothing, since the request aborts anyway.
- JWT validation (RFC 7519) and `verifyKeyFunc` (cafe/pin.go:131-133) are cryptography and key lookup. The verdict is an input.
- The request body bytes are not modelled. They reach the store only through the foreign calls above.
- gin's context, JSON rendering, header canonicalisation and logging are framework code. A response is a status with a body value. `NoResponse` stands for the handler writing nothing; gin then sends its default reply, status 200 with an empty body, so the client sees a 200 for a token rejected with an unrecognised error.
- `Cafe.DirectoryBuilder.AddFile` and `Cafe.DirectoryBuilder.GetNode` take the store's answer as a parameter, so their contracts say nothing about the store itself.
- `handleSearchStream`, the result and error channels, the cancel function and Server-Sent Events are concurrency code that is not part of this model. The model stops at the stream handed over, with its live or buffered mode.
- `readOpts`, `node.SearchThreadSnapshots` and the account address are not part of this model. They are parameters.
- `a.abort500` is not part of this model. The model assumes it answers 500 with the error's text.
- `strconv.Atoi` is an abstract parser. The model does not fix its exact syntax or its 64-bit range error.
- `Snapshots.WaitDefault` covers a missing key only for a parser that rejects the empty string, as `strconv.Atoi` does.
- cmd/main.go is client-side glue. Its only string logic joins arguments and options from a Go map, whose order is undefined.
