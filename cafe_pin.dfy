/** The cafe's pin endpoint: authenticate the bearer token, then pin either a
    gzip-compressed tar archive (as one flat directory) or a raw body, and
    answer with the pinned content identifier.

    The JWT check, gzip and tar decoding and the IPFS store are foreign code:
    their outcomes are inputs (`Env`), and the handler's calls into them are
    recorded as `Effects`. */
module Cafe {
  import opened Wrappers
  import Strings

  const StatusCreated := 201
  const StatusBadRequest := 400
  const StatusUnauthorized := 401
  const StatusForbidden := 403
  const StatusInternalServerError := 500

  const ErrForbidden := "forbidden"
  const ErrUnauthorized := "unauthorized"
  const ErrDirectoriesNotSupported := "directories are not supported"
  const ErrInvalidContentType := "invalid content-type"

  const ContentTypeGzip := "application/gzip"
  const ContentTypeOctetStream := "application/octet-stream"

  /** The human-readable hash of a pinned object's content identifier. */
  type Hash = string

  /** The JSON body `{"id": ..., "error": ...}`; an absent field is omitted. */
  datatype PinResponse = PinResponse(id: Option<Hash>, error: Option<string>)

  /** What the handler writes: nothing, or one status with one JSON body. */
  datatype Response = NoResponse | Json(status: int, body: PinResponse)

  function ErrorResponse(status: int, message: string): Response {
    Json(status, PinResponse(None, Some(message)))
  }

  function Created(hash: Hash): Response {
    Json(StatusCreated, PinResponse(Some(hash), None))
  }

  /** The outcome of validating the token: success or one of the verifier's errors. */
  datatype Validation = Ok | NoToken | Expired | Invalid | OtherError(message: string)

  /** The type flag of a tar header, reduced to the three cases the handler tells apart. */
  datatype TypeFlag = TypeDir | TypeReg | TypeOther

  /** One result of the tar reader's Next. For a header, `addError` is what
      adding that entry's contents to the directory would report. */
  datatype TarNext =
    | EOF
    | ReadError(message: string)
    | Header(typeflag: TypeFlag, name: string, addError: Option<string>)

  /** The request headers the handler looks at. */
  datatype Request = Request(authorization: string, contentType: string)

  /** The outcomes of the foreign calls the handler may make. Reads past the
      end of `archive` yield EOF. */
  datatype Env = Env(
    validation: Validation,
    gzipError: Option<string>,
    archive: seq<TarNext>,
    getNode: Result<Hash, string>,
    pinDirectory: Option<string>,
    pinData: Result<Hash, string>)

  /** The calls the handler made: the token handed to the verifier, the number
      of tar reads, the names added to the directory (in order), and whether
      the directory was finalised, the directory pinned or the raw body pinned. */
  datatype Effects = Effects(
    token: Option<string>,
    tarReads: nat,
    added: seq<string>,
    finalised: bool,
    pinnedDirectory: bool,
    pinnedData: bool)

  datatype Outcome = Outcome(response: Response, effects: Effects)

  function NoEffects(token: Option<string>): Effects {
    Effects(token, 0, [], false, false, false)
  }

  /** True when the handler made no call into the store. */
  predicate NoStoreCalls(fx: Effects) {
    fx.tarReads == 0 && fx.added == [] && !fx.finalised && !fx.pinnedDirectory && !fx.pinnedData
  }

  function NextAt(archive: seq<TarNext>, i: nat): TarNext {
    if i < |archive| then archive[i] else EOF
  }

  /** The token is the second space-separated field of the Authorization
      header; the first field (the scheme) is not looked at. */
  function BearerToken(authorization: string): Option<string> {
    var fields := Strings.Split(authorization, ' ');
    if |fields| < 2 then None else Some(fields[1])
  }

  /** The response for a failed validation. */
  function Rejection(v: Validation): (r: Response)
    requires v != Ok
    ensures r.Json? ==> r.body.id.None? && r.body.error.Some?
    ensures r.NoResponse? <==> v.OtherError?
  {
    match v
    case NoToken => ErrorResponse(StatusUnauthorized, ErrUnauthorized)
    case Expired => ErrorResponse(StatusUnauthorized, ErrUnauthorized)
    case Invalid => ErrorResponse(StatusForbidden, ErrForbidden)
    case OtherError(_) => NoResponse
  }

  /** Entries after which the archive loop goes on reading. */
  predicate Continues(e: TarNext) {
    e.Header? && (e.typeflag == TypeOther || (e.typeflag == TypeReg && e.addError.None?))
  }

  /** The name an entry adds to the directory: its own for a regular file. */
  function Added(e: TarNext): seq<string> {
    if e.Header? && e.typeflag == TypeReg then [e.name] else []
  }

  /** The error response of an entry that aborts the loop. */
  function AbortResponse(e: TarNext): (r: Response)
    requires !e.EOF? && !Continues(e)
    ensures r.Json? && r.body.id.None? && r.body.error.Some?
    ensures r.status in {StatusBadRequest, StatusInternalServerError}
  {
    match e
    case ReadError(m) => ErrorResponse(StatusInternalServerError, m)
    case Header(flag, _, addError) =>
      if flag == TypeDir then ErrorResponse(StatusBadRequest, ErrDirectoriesNotSupported)
      else ErrorResponse(StatusInternalServerError, addError.value)
  }

  /** The names of the regular-file entries of `entries`, in order. */
  function RegularNames(entries: seq<TarNext>): seq<string>
    decreases |entries|
  {
    if entries == [] then [] else Added(entries[0]) + RegularNames(entries[1..])
  }

  /** What reading an archive amounts to: the names added, the number of tar
      reads, and the error response if the loop aborted. */
  datatype Scan = Scan(added: seq<string>, calls: nat, abort: Option<Response>)

  function Shift(s: Scan, names: seq<string>, calls: nat): Scan {
    Scan(names + s.added, calls + s.calls, s.abort)
  }

  /** The archive loop, read entry by entry: it stops at EOF (or the end of
      the reads), aborts at the first entry that does not let it go on, and
      otherwise adds what each entry adds. */
  function ScanArchive(entries: seq<TarNext>): (s: Scan)
    ensures s.calls >= 1
    ensures s.abort.Some? ==> s.abort.value.Json? && s.abort.value.body.id.None?
                              && s.abort.value.body.error.Some?
                              && s.abort.value.status in {StatusBadRequest, StatusInternalServerError}
    decreases |entries|
  {
    if entries == [] || entries[0].EOF? then Scan([], 1, None)
    else if Continues(entries[0]) then Shift(ScanArchive(entries[1..]), Added(entries[0]), 1)
    else Scan([], 1, Some(AbortResponse(entries[0])))
  }

  /** Adding one more entry to a prefix adds what that entry adds. */
  lemma {:induction false} RegularNamesSnoc(entries: seq<TarNext>, k: nat)
    requires k < |entries|
    ensures RegularNames(entries[..k + 1]) == RegularNames(entries[..k]) + Added(entries[k])
    decreases k
  {
    if k > 0 {
      RegularNamesSnoc(entries[1..], k - 1);
      assert entries[..k + 1][1..] == entries[1..][..k];
      assert entries[..k][1..] == entries[1..][..k - 1];
    }
  }

  /** The first entry that does not let the loop go on decides how it ends:
      the loop has read up to and including it, added the regular files
      before it, and aborts with its error unless it is EOF. */
  lemma {:induction false} ScanStopsAt(entries: seq<TarNext>, k: nat)
    requires k <= |entries|
    requires forall j :: 0 <= j < k ==> Continues(entries[j])
    requires !Continues(NextAt(entries, k))
    ensures ScanArchive(entries) ==
              Scan(RegularNames(entries[..k]), k + 1,
                   if NextAt(entries, k).EOF? then None else Some(AbortResponse(NextAt(entries, k))))
    decreases k
  {
    if k > 0 {
      ScanStopsAt(entries[1..], k - 1);
      assert entries[..k][1..] == entries[1..][..k - 1];
      assert NextAt(entries[1..], k - 1) == NextAt(entries, k);
    } else {
      assert entries[..0] == [];
    }
  }

  /** The gzip branch after authentication. */
  function ArchivePath(token: string, env: Env): Outcome {
    if env.gzipError.Some? then
      Outcome(ErrorResponse(StatusBadRequest, env.gzipError.value), NoEffects(Some(token)))
    else
      var scan := ScanArchive(env.archive);
      var fx := Effects(Some(token), scan.calls, scan.added, false, false, false);
      if scan.abort.Some? then Outcome(scan.abort.value, fx)
      else FinaliseAndPin(fx, env)
  }

  /** After the archive was read to its end: take the directory's root node,
      pin it and answer with its id. */
  function FinaliseAndPin(fx: Effects, env: Env): Outcome {
    match env.getNode
    case Failure(e) => Outcome(ErrorResponse(StatusInternalServerError, e), fx.(finalised := true))
    case Success(root) =>
      var fx' := fx.(finalised := true, pinnedDirectory := true);
      if env.pinDirectory.Some? then Outcome(ErrorResponse(StatusInternalServerError, env.pinDirectory.value), fx')
      else Outcome(Created(root), fx')
  }

  /** The gzip branch when the entry at `k` aborts the loop. */
  lemma ArchivePathAbortsAt(token: string, env: Env, k: nat)
    requires env.gzipError.None?
    requires k < |env.archive| && !env.archive[k].EOF? && !Continues(env.archive[k])
    requires forall j :: 0 <= j < k ==> Continues(env.archive[j])
    ensures ArchivePath(token, env) ==
              Outcome(AbortResponse(env.archive[k]),
                      Effects(Some(token), k + 1, RegularNames(env.archive[..k]), false, false, false))
  {
    ScanStopsAt(env.archive, k);
  }

  /** The gzip branch when the read at `k` is EOF. */
  lemma ArchivePathEndsAt(token: string, env: Env, k: nat)
    requires env.gzipError.None?
    requires k <= |env.archive| && NextAt(env.archive, k).EOF?
    requires forall j :: 0 <= j < k ==> Continues(env.archive[j])
    ensures ArchivePath(token, env) ==
              FinaliseAndPin(Effects(Some(token), k + 1, RegularNames(env.archive[..k]), false, false, false), env)
  {
    ScanStopsAt(env.archive, k);
  }

  /** The octet-stream branch after authentication. */
  function RawPath(token: string, env: Env): Outcome {
    var fx := NoEffects(Some(token)).(pinnedData := true);
    match env.pinData
    case Failure(e) => Outcome(ErrorResponse(StatusInternalServerError, e), fx)
    case Success(hash) => Outcome(Created(hash), fx)
  }

  /** The whole request, as a specification of `Pin`. */
  function Handle(req: Request, env: Env): Outcome {
    match BearerToken(req.authorization)
    case None => Outcome(ErrorResponse(StatusUnauthorized, ErrUnauthorized), NoEffects(None))
    case Some(token) =>
      if env.validation != Ok then Outcome(Rejection(env.validation), NoEffects(Some(token)))
      else if req.contentType == ContentTypeGzip then ArchivePath(token, env)
      else if req.contentType == ContentTypeOctetStream then RawPath(token, env)
      else Outcome(ErrorResponse(StatusBadRequest, ErrInvalidContentType), NoEffects(Some(token)))
  }

  /** The virtual directory being filled during one request. It records the
      names of the files added to it; once its node has been taken it is not
      added to again. */
  class DirectoryBuilder {
    var names: seq<string>
    var finalised: bool

    constructor ()
      ensures names == [] && !finalised
    {
      names := [];
      finalised := false;
    }

    /** Adds a file under `name`; `outcome` is the store's answer. */
    method AddFile(name: string, outcome: Option<string>) returns (err: Option<string>)
      requires !finalised
      modifies this
      ensures err == outcome && !finalised
      ensures names == if outcome.None? then old(names) + [name] else old(names)
    {
      err := outcome;
      if outcome.None? {
        names := names + [name];
      }
    }

    /** Finalises the directory into its root node; `outcome` is the store's answer. */
    method GetNode(outcome: Result<Hash, string>) returns (root: Result<Hash, string>)
      modifies this
      ensures root == outcome && finalised && names == old(names)
    {
      root := outcome;
      finalised := true;
    }
  }

  /** The handler, step by step. */
  method Pin(req: Request, env: Env) returns (out: Outcome)
    ensures out == Handle(req, env)
  {
    var auth := Strings.Split(req.authorization, ' ');
    if |auth| < 2 {
      return Outcome(ErrorResponse(StatusUnauthorized, ErrUnauthorized), NoEffects(None));
    }
    var token := auth[1];

    if env.validation != Ok {
      return Outcome(Rejection(env.validation), NoEffects(Some(token)));
    }

    var cType := req.contentType;
    if cType == ContentTypeGzip {
      out := PinArchive(token, env);
    } else if cType == ContentTypeOctetStream {
      var fx := NoEffects(Some(token)).(pinnedData := true);
      var pinned := env.pinData;
      if pinned.Failure? {
        return Outcome(ErrorResponse(StatusInternalServerError, pinned.error), fx);
      }
      var id := pinned.value;
      out := Outcome(Created(id), fx);
    } else {
      out := Outcome(ErrorResponse(StatusBadRequest, ErrInvalidContentType), NoEffects(Some(token)));
    }
  }

  /** The gzip branch: read the archive into a fresh directory, then finalise
      and pin it. */
  method PinArchive(token: string, env: Env) returns (out: Outcome)
    ensures out == ArchivePath(token, env)
  {
    var dirb := new DirectoryBuilder();
    if env.gzipError.Some? {
      return Outcome(ErrorResponse(StatusBadRequest, env.gzipError.value), NoEffects(Some(token)));
    }
    var calls := 0;
    while true
      invariant 0 <= calls <= |env.archive|
      invariant !dirb.finalised
      invariant forall j :: 0 <= j < calls ==> Continues(env.archive[j])
      invariant dirb.names == RegularNames(env.archive[..calls])
      decreases |env.archive| - calls
    {
      var next := NextAt(env.archive, calls);
      var fx := Effects(Some(token), calls + 1, dirb.names, false, false, false);
      if next.EOF? {
        ArchivePathEndsAt(token, env, calls);
        calls := calls + 1;
        break;
      }
      if next.ReadError? {
        ArchivePathAbortsAt(token, env, calls);
        return Outcome(ErrorResponse(StatusInternalServerError, next.message), fx);
      }
      match next.typeflag {
        case TypeDir =>
          ArchivePathAbortsAt(token, env, calls);
          return Outcome(ErrorResponse(StatusBadRequest, ErrDirectoriesNotSupported), fx);
        case TypeReg =>
          var err := dirb.AddFile(next.name, next.addError);
          if err.Some? {
            ArchivePathAbortsAt(token, env, calls);
            return Outcome(ErrorResponse(StatusInternalServerError, err.value), fx);
          }
        case TypeOther =>
      }
      RegularNamesSnoc(env.archive, calls);
      calls := calls + 1;
    }

    var fx := Effects(Some(token), calls, dirb.names, true, false, false);
    var dir := dirb.GetNode(env.getNode);
    if dir.Failure? {
      return Outcome(ErrorResponse(StatusInternalServerError, dir.error), fx);
    }
    fx := fx.(pinnedDirectory := true);
    if env.pinDirectory.Some? {
      return Outcome(ErrorResponse(StatusInternalServerError, env.pinDirectory.value), fx);
    }
    var id := dir.value;
    out := Outcome(Created(id), fx);
  }
}
