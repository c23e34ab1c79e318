/** What the pin handler promises, proved about its specification `Cafe.Handle`
    (and so, through `Cafe.Pin`'s postcondition, about the handler itself). */
module CafeProperties {
  import opened Wrappers
  import Strings
  import opened Cafe

  /** The header carries a second field and the verifier accepted the token. */
  predicate Authorized(req: Request, env: Env) {
    ' ' in req.authorization && env.validation == Ok
  }

  /** The request reaches the tar loop. */
  predicate ArchiveRequest(req: Request, env: Env) {
    Authorized(req, env) && req.contentType == ContentTypeGzip && env.gzipError.None?
  }

  // ---------------------------------------------------------------------------
  // Authorization header and token validation

  /** A header with no space (so fewer than two fields: empty, or "Bearer"
      alone) is answered 401 unauthorized before anything else runs. */
  lemma MissingTokenField(req: Request, env: Env)
    ensures BearerToken(req.authorization).None? <==> ' ' !in req.authorization
    ensures ' ' !in req.authorization ==>
              Handle(req, env) == Outcome(ErrorResponse(StatusUnauthorized, ErrUnauthorized), NoEffects(None))
  {
    Strings.SplitHasTwoFields(req.authorization, ' ');
  }

  /** The token handed to the verifier is the header's bearer token, if any. */
  lemma ValidatedToken(req: Request, env: Env)
    ensures Handle(req, env).effects.token == BearerToken(req.authorization)
  {
  }

  /** The bearer token is exactly the second field: the scheme word is not
      checked and further fields are ignored. */
  lemma TokenIsSecondField(scheme: string, token: string, tail: string)
    requires ' ' !in scheme && ' ' !in token
    requires tail == [] || tail[0] == ' '
    ensures BearerToken(scheme + " " + token + tail) == Some(token)
  {
    var header := scheme + " " + token + tail;
    assert header == scheme + [' '] + (token + tail);
    Strings.SplitAfterWord(scheme, ' ', token + tail);
    Strings.SplitFirstPiece(token, ' ', tail);
  }

  /** A failed validation maps NoToken and Expired to 401, Invalid to 403 and
      any other error to no response; in every case the store is not touched. */
  lemma ValidationFailure(req: Request, env: Env)
    requires ' ' in req.authorization && env.validation != Ok
    ensures NoStoreCalls(Handle(req, env).effects)
    ensures env.validation in {NoToken, Expired} <==>
              Handle(req, env).response == ErrorResponse(StatusUnauthorized, ErrUnauthorized)
    ensures env.validation == Invalid <==>
              Handle(req, env).response == ErrorResponse(StatusForbidden, ErrForbidden)
    ensures env.validation.OtherError? <==> Handle(req, env).response.NoResponse?
  {
    Strings.SplitHasTwoFields(req.authorization, ' ');
  }

  /** Any content type other than the two exact strings is a 400 without any
      store call. */
  lemma InvalidContentType(req: Request, env: Env)
    requires Authorized(req, env)
    requires req.contentType != ContentTypeGzip && req.contentType != ContentTypeOctetStream
    ensures Handle(req, env).response == ErrorResponse(StatusBadRequest, ErrInvalidContentType)
    ensures NoStoreCalls(Handle(req, env).effects)
  {
    Strings.SplitHasTwoFields(req.authorization, ' ');
  }

  /** Store calls happen only for an authorized request with a known content type. */
  lemma StoreOnlyAfterAuthAndDispatch(req: Request, env: Env)
    requires !NoStoreCalls(Handle(req, env).effects)
    ensures Authorized(req, env)
    ensures req.contentType in {ContentTypeGzip, ContentTypeOctetStream}
  {
    Strings.SplitHasTwoFields(req.authorization, ' ');
  }

  /** If the gzip reader cannot be created: 400 with its error, no tar read,
      nothing added or pinned. */
  lemma GzipFailure(req: Request, env: Env)
    requires Authorized(req, env) && req.contentType == ContentTypeGzip && env.gzipError.Some?
    ensures Handle(req, env).response == ErrorResponse(StatusBadRequest, env.gzipError.value)
    ensures NoStoreCalls(Handle(req, env).effects)
  {
    Strings.SplitHasTwoFields(req.authorization, ' ');
  }

  // ---------------------------------------------------------------------------
  // The tar loop

  /** A loop that did not abort read every entry before the EOF it stopped at,
      and each of those entries let the loop go on. */
  lemma {:induction false} ScanCompleted(entries: seq<TarNext>)
    requires ScanArchive(entries).abort.None?
    ensures NextAt(entries, ScanArchive(entries).calls - 1) == EOF
    ensures ScanArchive(entries).calls - 1 <= |entries|
    ensures forall j :: 0 <= j < ScanArchive(entries).calls - 1 ==> Continues(entries[j])
    decreases |entries|
  {
    if entries != [] && !entries[0].EOF? {
      var rest := entries[1..];
      assert Continues(entries[0]);
      assert ScanArchive(entries).calls == ScanArchive(rest).calls + 1;
      ScanCompleted(rest);
      forall j | 0 <= j < ScanArchive(entries).calls - 1
        ensures Continues(entries[j])
      {
        if j > 0 {
          assert entries[j] == rest[j - 1];
        }
      }
    }
  }

  /** A directory entry reached before any EOF aborts the loop. */
  lemma {:induction false} ScanAbortsAtDirectory(entries: seq<TarNext>, k: nat)
    requires k < |entries| && entries[k].Header? && entries[k].typeflag == TypeDir
    requires forall j :: 0 <= j < k ==> !entries[j].EOF?
    ensures ScanArchive(entries).abort.Some?
    decreases k
  {
    if k > 0 && Continues(entries[0]) {
      ScanAbortsAtDirectory(entries[1..], k - 1);
    }
  }

  /** The first directory entry aborts with 400 "directories are not
      supported"; the directory is neither finalised nor pinned. */
  lemma DirectoryEntryAborts(req: Request, env: Env, k: nat)
    requires ArchiveRequest(req, env)
    requires k < |env.archive| && env.archive[k].Header? && env.archive[k].typeflag == TypeDir
    requires forall j :: 0 <= j < k ==> Continues(env.archive[j])
    ensures Handle(req, env) ==
              Outcome(ErrorResponse(StatusBadRequest, ErrDirectoriesNotSupported),
                      Effects(BearerToken(req.authorization), k + 1, RegularNames(env.archive[..k]), false, false, false))
  {
    Strings.SplitHasTwoFields(req.authorization, ' ');
    ScanStopsAt(env.archive, k);
  }

  /** No pin after a directory entry: once a directory entry precedes every
      EOF, the directory is never finalised or pinned, and a gzip request is
      never answered 201. */
  lemma NoPinAfterDirectory(req: Request, env: Env, k: nat)
    requires k < |env.archive| && env.archive[k].Header? && env.archive[k].typeflag == TypeDir
    requires forall j :: 0 <= j < k ==> !env.archive[j].EOF?
    ensures !Handle(req, env).effects.finalised && !Handle(req, env).effects.pinnedDirectory
    ensures req.contentType == ContentTypeGzip ==>
              !(Handle(req, env).response.Json? && Handle(req, env).response.status == StatusCreated)
  {
    ScanAbortsAtDirectory(env.archive, k);
  }

  /** A tar read error other than EOF is a 500 with its text. */
  lemma ReadErrorAborts(req: Request, env: Env, k: nat)
    requires ArchiveRequest(req, env)
    requires k < |env.archive| && env.archive[k].ReadError?
    requires forall j :: 0 <= j < k ==> Continues(env.archive[j])
    ensures Handle(req, env) ==
              Outcome(ErrorResponse(StatusInternalServerError, env.archive[k].message),
                      Effects(BearerToken(req.authorization), k + 1, RegularNames(env.archive[..k]), false, false, false))
  {
    Strings.SplitHasTwoFields(req.authorization, ' ');
    ScanStopsAt(env.archive, k);
  }

  /** A failure to add a regular file is a 500 with its text; that file is not
      among the added names. */
  lemma AddFileFailureAborts(req: Request, env: Env, k: nat)
    requires ArchiveRequest(req, env)
    requires k < |env.archive| && env.archive[k].Header? && env.archive[k].typeflag == TypeReg
    requires env.archive[k].addError.Some?
    requires forall j :: 0 <= j < k ==> Continues(env.archive[j])
    ensures Handle(req, env) ==
              Outcome(ErrorResponse(StatusInternalServerError, env.archive[k].addError.value),
                      Effects(BearerToken(req.authorization), k + 1, RegularNames(env.archive[..k]), false, false, false))
  {
    Strings.SplitHasTwoFields(req.authorization, ' ');
    ScanStopsAt(env.archive, k);
  }

  /** An archive read to EOF at position k: the regular files before it were
      added once each in archive order, the directory was finalised, and the
      outcome follows GetNode and PinDirectory. */
  lemma ArchiveReadToEnd(req: Request, env: Env, k: nat)
    requires ArchiveRequest(req, env)
    requires k <= |env.archive| && NextAt(env.archive, k) == EOF
    requires forall j :: 0 <= j < k ==> Continues(env.archive[j])
    ensures Handle(req, env).effects.tarReads == k + 1
    ensures Handle(req, env).effects.added == RegularNames(env.archive[..k])
    ensures Handle(req, env).effects.finalised && !Handle(req, env).effects.pinnedData
    ensures env.getNode.Failure? ==>
              Handle(req, env).response == ErrorResponse(StatusInternalServerError, env.getNode.error)
              && !Handle(req, env).effects.pinnedDirectory
    ensures env.getNode.Success? ==> Handle(req, env).effects.pinnedDirectory
    ensures env.getNode.Success? && env.pinDirectory.Some? ==>
              Handle(req, env).response == ErrorResponse(StatusInternalServerError, env.pinDirectory.value)
    ensures env.getNode.Success? && env.pinDirectory.None? ==>
              Handle(req, env).response == Created(env.getNode.value)
  {
    Strings.SplitHasTwoFields(req.authorization, ' ');
    ScanStopsAt(env.archive, k);
  }

  /** Inserting an entry of another type anywhere in the archive changes
      neither the added names nor the way the loop ends; it only costs one
      more read if the loop gets that far. */
  lemma {:induction false} ScanSkipsOtherEntries(entries: seq<TarNext>, k: nat, e: TarNext)
    requires k <= |entries|
    requires e.Header? && e.typeflag == TypeOther
    ensures ScanArchive(entries[..k] + [e] + entries[k..]).added == ScanArchive(entries).added
    ensures ScanArchive(entries[..k] + [e] + entries[k..]).abort == ScanArchive(entries).abort
    ensures ScanArchive(entries[..k] + [e] + entries[k..]).calls ==
              if ScanArchive(entries).calls <= k then ScanArchive(entries).calls else ScanArchive(entries).calls + 1
    decreases k
  {
    var t := entries[..k] + [e] + entries[k..];
    if k == 0 {
      assert t == [e] + entries;
      assert t[1..] == entries;
    } else {
      var rest := entries[1..];
      assert t[0] == entries[0];
      assert t[1..] == rest[..k - 1] + [e] + rest[k - 1..];
      if Continues(entries[0]) {
        ScanSkipsOtherEntries(rest, k - 1, e);
      }
    }
  }

  /** Skipped entries change nothing the client or the store sees. */
  lemma SkippedEntryChangesNothing(req: Request, env: Env, k: nat, e: TarNext)
    requires k <= |env.archive|
    requires e.Header? && e.typeflag == TypeOther
    ensures Handle(req, env.(archive := env.archive[..k] + [e] + env.archive[k..])).response
            == Handle(req, env).response
    ensures Handle(req, env.(archive := env.archive[..k] + [e] + env.archive[k..])).effects.(tarReads := 0)
            == Handle(req, env).effects.(tarReads := 0)
  {
    var env' := env.(archive := env.archive[..k] + [e] + env.archive[k..]);
    ScanSkipsOtherEntries(env.archive, k, e);
    var token := BearerToken(req.authorization);
    if token.Some? && env.validation == Ok && req.contentType == ContentTypeGzip {
      ArchivePathIgnoresReads(token.value, env, env');
    }
  }

  /** The gzip branch depends on the scan only through its names and its end. */
  lemma ArchivePathIgnoresReads(token: string, env: Env, env': Env)
    requires env'.validation == env.validation && env'.gzipError == env.gzipError
    requires env'.getNode == env.getNode && env'.pinDirectory == env.pinDirectory
    requires ScanArchive(env'.archive).added == ScanArchive(env.archive).added
    requires ScanArchive(env'.archive).abort == ScanArchive(env.archive).abort
    ensures ArchivePath(token, env').response == ArchivePath(token, env).response
    ensures ArchivePath(token, env').effects.(tarReads := 0) == ArchivePath(token, env).effects.(tarReads := 0)
  {
  }

  // ---------------------------------------------------------------------------
  // The raw path and the shape of every response

  /** The raw body is pinned directly: 201 with the PinData id, or 500 with
      its error; no tar read and no directory. */
  lemma RawPin(req: Request, env: Env)
    requires Authorized(req, env) && req.contentType == ContentTypeOctetStream
    ensures Handle(req, env).effects == NoEffects(BearerToken(req.authorization)).(pinnedData := true)
    ensures env.pinData.Failure? ==>
              Handle(req, env).response == ErrorResponse(StatusInternalServerError, env.pinData.error)
    ensures env.pinData.Success? ==> Handle(req, env).response == Created(env.pinData.value)
  {
    Strings.SplitHasTwoFields(req.authorization, ' ');
  }

  /** Exactly one response per path: a response is missing only for an
      unrecognised validation error; every response sets exactly one of `id`
      and `error`, `id` exactly on 201, and uses one of five statuses. */
  lemma ResponseShape(req: Request, env: Env)
    ensures Handle(req, env).response.NoResponse? <==>
              ' ' in req.authorization && env.validation.OtherError?
    ensures Handle(req, env).response.Json? ==>
              Handle(req, env).response.body.id.Some? != Handle(req, env).response.body.error.Some?
    ensures Handle(req, env).response.Json? ==>
              (Handle(req, env).response.status == StatusCreated <==> Handle(req, env).response.body.id.Some?)
    ensures Handle(req, env).response.Json? ==>
              Handle(req, env).response.status in
                {StatusCreated, StatusBadRequest, StatusUnauthorized, StatusForbidden, StatusInternalServerError}
  {
    Strings.SplitHasTwoFields(req.authorization, ' ');
  }

  /** A 201 carries the id of what was pinned: on the archive path the
      finalised root, after the whole archive was read to EOF without abort;
      on the raw path the PinData id. */
  lemma CreatedCarriesPinnedId(req: Request, env: Env, hash: Hash)
    requires Handle(req, env).response == Created(hash)
    ensures Authorized(req, env)
    ensures req.contentType == ContentTypeGzip ==>
              && env.getNode == Success(hash) && env.pinDirectory.None?
              && Handle(req, env).effects.finalised && Handle(req, env).effects.pinnedDirectory
              && !Handle(req, env).effects.pinnedData
              && NextAt(env.archive, Handle(req, env).effects.tarReads - 1) == EOF
              && Handle(req, env).effects.tarReads - 1 <= |env.archive|
              && (forall j :: 0 <= j < Handle(req, env).effects.tarReads - 1 ==> Continues(env.archive[j]))
    ensures req.contentType == ContentTypeOctetStream ==>
              env.pinData == Success(hash) && Handle(req, env).effects == NoEffects(BearerToken(req.authorization)).(pinnedData := true)
    ensures req.contentType in {ContentTypeGzip, ContentTypeOctetStream}
  {
    Strings.SplitHasTwoFields(req.authorization, ' ');
    if req.contentType == ContentTypeGzip {
      ScanCompleted(env.archive);
    }
  }
}
