/** What the read of the data source guarantees, stated over `Fetch.Read` and
    therefore, through its postcondition, over `Fetch.ReadDependencyNexusRaw`. */
module FetchProperties {
  import opened Common
  import opened Search
  import opened Credentials
  import opened Fetch
  import Base64

  /** A digest as `fmt.Sprintf("%x", md5.Sum)` prints it: 32 lower-case hex digits. */
  predicate IsMd5Hex(h: GoString)
  {
    |h| == 32 && forall i :: 0 <= i < |h| ==> (48 <= h[i] <= 57 || 97 <= h[i] <= 102)
  }

  /** The search the read makes once the token is known. */
  function SearchOf(cfg: Config, env: Environment, token: GoString): SearchOutcome
  {
    SearchRawRepo(cfg.server, Repository(), cfg.name, token, env.newRequest, env.search)
  }

  /** The read reaches the asset: credentials accepted, search answered. */
  predicate Found(cfg: Config, env: Environment, token: GoString, asset: Asset)
  {
    && SelectToken(cfg.username, cfg.password, cfg.basicAuth, env.secrets) == Success(token)
    && SearchOf(cfg, env, token).result == Success(asset)
  }

  /** Once the asset is found, the read is the cache check, then the download. */
  lemma ReadFound(cfg: Config, env: Environment, token: GoString, asset: Asset,
                  out: Outputs, files: map<GoString, GoString>)
    requires Found(cfg, env, token, asset)
    ensures var path := DestinationPath(cfg);
      var recorded := Recorded(out, asset, path);
      var download := Download(env, token, asset, path, recorded, files);
      Read(cfg, env, out, files) ==
        if CacheSatisfied(files, path, ExpectedMd5(asset), env)
        then Run(Ok, recorded.(assetSize := Decimal(|files[path]|)), files, SearchOf(cfg, env, token).sent)
        else download.(sent := SearchOf(cfg, env, token).sent + download.sent)
  {
  }

  /** The download branch changes only `asset_size` and touches only the
      destination file. */
  lemma DownloadFrame(env: Environment, token: GoString, asset: Asset, path: GoString,
                      out: Outputs, files: map<GoString, GoString>)
    ensures var run := Download(env, token, asset, path, out, files);
      && run.outputs == out.(assetSize := run.outputs.assetSize)
      && (run.files == files || (path in run.files && run.files == files[path := run.files[path]]))
      && (run.sent == [] || run.sent == [Get(asset.downloadUrl, AuthorizationHeader(token))])
      && (run.outcome == Ok ==> run.sent != [])
  {
  }

  /** A credential error ends the read before any request is sent, with
      nothing set and no file touched. */
  lemma CredentialErrorSendsNothing(cfg: Config, env: Environment, out: Outputs, files: map<GoString, GoString>)
    requires SelectToken(cfg.username, cfg.password, cfg.basicAuth, env.secrets).Failure?
    ensures Read(cfg, env, out, files) ==
      Run(Failed(CredentialsRejected(SelectToken(cfg.username, cfg.password, cfg.basicAuth, env.secrets).error)),
          out, files, [])
  {
  }

  /** `basic_auth` with a username and a password is refused before the search. */
  lemma ConflictBeforeSearch(cfg: Config, env: Environment, out: Outputs, files: map<GoString, GoString>)
    requires cfg.username != [] && cfg.password != [] && cfg.basicAuth != []
    ensures Read(cfg, env, out, files) == Run(Failed(CredentialsRejected(ConflictingCredentials)), out, files, [])
  {
    ConflictWins(cfg.username, cfg.password, cfg.basicAuth, env.secrets);
  }

  /** Half a username/password pair is refused before the search. */
  lemma HalfPairBeforeSearch(cfg: Config, env: Environment, out: Outputs, files: map<GoString, GoString>)
    requires (cfg.username == []) != (cfg.password == [])
    ensures Read(cfg, env, out, files) == Run(Failed(CredentialsRejected(IncompleteCredentials)), out, files, [])
  {
    HalfPairRefused(cfg.username, cfg.password, cfg.basicAuth, env.secrets);
  }

  /** The malformed token "not-base64!!" is refused before any network call. */
  lemma MalformedTokenBeforeSearch(cfg: Config, env: Environment, out: Outputs, files: map<GoString, GoString>)
    requires cfg.username == [] && cfg.password == [] && cfg.basicAuth == Str("not-base64!!")
    ensures Read(cfg, env, out, files) == Run(Failed(CredentialsRejected(InvalidBasicAuth)), out, files, [])
  {
    Base64.NotBase64Refused();
  }

  /** A failed search sets nothing, touches no file and sends no download. */
  lemma SearchErrorChangesNothing(cfg: Config, env: Environment, token: GoString,
                                  out: Outputs, files: map<GoString, GoString>)
    requires SelectToken(cfg.username, cfg.password, cfg.basicAuth, env.secrets) == Success(token)
    requires SearchOf(cfg, env, token).result.Failure?
    ensures var run := Read(cfg, env, out, files);
      && run.outcome == Failed(AssetNotRetrieved(SearchOf(cfg, env, token).result.error))
      && run.outputs == out && run.files == files && |run.sent| <= 1
  {
  }

  /** Once the asset is found, whatever follows: the asset's id, URL, expected
      MD5 and content type are recorded, the path is `destination/name`, the id
      is the expected MD5, and only `asset_size` may be set later. */
  lemma FieldsRecorded(cfg: Config, env: Environment, token: GoString, asset: Asset,
                       out: Outputs, files: map<GoString, GoString>)
    requires Found(cfg, env, token, asset)
    ensures var o := Read(cfg, env, out, files).outputs;
      && o.assetId == asset.id && o.assetUrl == asset.downloadUrl
      && (Md5Key() in asset.checksum ==> o.assetMd5 == asset.checksum[Md5Key()])
      && (Md5Key() !in asset.checksum ==> o.assetMd5 == [])
      && o.assetContentType == asset.contentType
      && o.assetPath == cfg.destination + [47] + cfg.name && o.id == o.assetMd5
  {
    DownloadFrame(env, token, asset, DestinationPath(cfg), Recorded(out, asset, DestinationPath(cfg)), files);
  }

  /** A file already in place with the expected digest is accepted: success,
      size from the file, no file changed and the search the only request. */
  lemma CacheHit(cfg: Config, env: Environment, token: GoString, asset: Asset,
                 out: Outputs, files: map<GoString, GoString>)
    requires Found(cfg, env, token, asset)
    requires !env.cacheReadFails
    requires DestinationPath(cfg) in files && env.md5hex(files[DestinationPath(cfg)]) == ExpectedMd5(asset)
    ensures var run := Read(cfg, env, out, files);
      && run.outcome == Ok && run.files == files
      && run.outputs.assetSize == Decimal(|files[DestinationPath(cfg)]|)
      && run.sent == [Get(SearchUrl(cfg.server, Repository(), cfg.name), AuthorizationHeader(token))]
  {
  }

  /** An empty file whose digest is the expected one gives `asset_size` "0". */
  lemma EmptyCachedFile(cfg: Config, env: Environment, token: GoString, asset: Asset,
                        out: Outputs, files: map<GoString, GoString>)
    requires Found(cfg, env, token, asset)
    requires !env.cacheReadFails
    requires DestinationPath(cfg) in files && files[DestinationPath(cfg)] == []
    requires env.md5hex([]) == ExpectedMd5(asset)
    ensures Read(cfg, env, out, files).outcome == Ok
    ensures Read(cfg, env, out, files).outputs.assetSize == Str("0")
  {
    CacheHit(cfg, env, token, asset, out, files);
  }

  /** On a cache miss, once the file is created, it is empty until the body is
      copied: a request that cannot be built, a transport failure or a non-200
      status leaves an empty file behind. */
  lemma TruncatedBeforeGet(cfg: Config, env: Environment, token: GoString, asset: Asset,
                           out: Outputs, files: map<GoString, GoString>)
    requires Found(cfg, env, token, asset)
    requires Read(cfg, env, out, files).outcome.Failed?
    requires Read(cfg, env, out, files).outcome.error.DownloadRequestNotBuilt?
          || Read(cfg, env, out, files).outcome.error.DownloadRequestFailed?
          || Read(cfg, env, out, files).outcome.error.DownloadStatus?
    ensures Read(cfg, env, out, files).files == files[DestinationPath(cfg) := []]
  {
    ReadFound(cfg, env, token, asset, out, files);
  }

  /** The download succeeds exactly when nothing fails on the way and the bytes
      written have the expected digest; the size is the number of bytes written. */
  lemma DownloadedAndVerified(cfg: Config, env: Environment, token: GoString, asset: Asset,
                              out: Outputs, files: map<GoString, GoString>, body: Body)
    requires Found(cfg, env, token, asset)
    requires !CacheSatisfied(files, DestinationPath(cfg), ExpectedMd5(asset), env)
    requires !(env.mkdir.MkdirError? && !env.mkdir.alreadyExists) && env.createError.None?
    requires env.newRequest(asset.downloadUrl).None?
    requires env.download(Get(asset.downloadUrl, AuthorizationHeader(token))).Response?
    requires env.download(Get(asset.downloadUrl, AuthorizationHeader(token))).status == 200
    requires env.download(Get(asset.downloadUrl, AuthorizationHeader(token))).body == body
    requires body.failure.None?
    ensures var run := Read(cfg, env, out, files);
      && run.files == files[DestinationPath(cfg) := Concat(body.chunks)]
      && run.outputs.assetSize == Decimal(|Concat(body.chunks)|)
      && |run.sent| == 2 && run.sent[1] == Get(asset.downloadUrl, AuthorizationHeader(token))
      && (run.outcome == Ok <==> !env.rehashReadFails && env.md5hex(Concat(body.chunks)) == ExpectedMd5(asset))
      && (run.outcome != Ok ==> run.outcome == Failed(Md5Mismatch))
  {
  }

  /** A mismatched download stays on disk: after an MD5 mismatch the
      destination holds exactly the bytes downloaded. */
  lemma MismatchKeepsDownload(cfg: Config, env: Environment, out: Outputs, files: map<GoString, GoString>)
    requires Read(cfg, env, out, files).outcome == Failed(Md5Mismatch)
    ensures var token := SelectToken(cfg.username, cfg.password, cfg.basicAuth, env.secrets).value;
      var asset := SearchOf(cfg, env, token).result.value;
      var reply := env.download(Get(asset.downloadUrl, AuthorizationHeader(token)));
      && reply.Response? && reply.status == 200 && reply.body.failure.None?
      && Read(cfg, env, out, files).files == files[DestinationPath(cfg) := Concat(reply.body.chunks)]
  {
  }

  /** The invariant of a successful read: the destination exists, its digest is
      the recorded `asset_md5`, `asset_size` is its length and the id is the
      expected digest. No success is reported for a file that does not match. */
  lemma OkMeansVerified(cfg: Config, env: Environment, out: Outputs, files: map<GoString, GoString>)
    requires Read(cfg, env, out, files).outcome == Ok
    ensures var run := Read(cfg, env, out, files); var path := DestinationPath(cfg);
      && path in run.files && env.md5hex(run.files[path]) == run.outputs.assetMd5
      && run.outputs.assetSize == Decimal(|run.files[path]|)
      && run.outputs.id == run.outputs.assetMd5 && run.outputs.assetPath == path
  {
    var token := SelectToken(cfg.username, cfg.password, cfg.basicAuth, env.secrets).value;
    var asset := SearchOf(cfg, env, token).result.value;
    FieldsRecorded(cfg, env, token, asset, out, files);
  }

  /** With a digest that always prints 32 lower-case hex digits, an expected
      MD5 of any other form (empty, upper case, truncated) can never succeed:
      the comparison is exact. */
  lemma UnmatchableMd5NeverSucceeds(cfg: Config, env: Environment, token: GoString, asset: Asset,
                                    out: Outputs, files: map<GoString, GoString>)
    requires forall b :: IsMd5Hex(env.md5hex(b))
    requires Found(cfg, env, token, asset)
    requires !IsMd5Hex(ExpectedMd5(asset))
    ensures Read(cfg, env, out, files).outcome != Ok
  {
    var run := Read(cfg, env, out, files);
    var path := DestinationPath(cfg);
    FieldsRecorded(cfg, env, token, asset, out, files);
    assert IsMd5Hex(env.md5hex(if path in run.files then run.files[path] else []));
    if run.outcome == Ok {
      OkMeansVerified(cfg, env, out, files);
    }
  }

  /** A missing `md5` key reads as the empty expected MD5, so such a read never
      succeeds. */
  lemma MissingMd5NeverSucceeds(cfg: Config, env: Environment, token: GoString, asset: Asset,
                                out: Outputs, files: map<GoString, GoString>)
    requires forall b :: IsMd5Hex(env.md5hex(b))
    requires Found(cfg, env, token, asset)
    requires Md5Key() !in asset.checksum
    ensures Read(cfg, env, out, files).outcome != Ok
  {
    assert ExpectedMd5(asset) == [];
    UnmatchableMd5NeverSucceeds(cfg, env, token, asset, out, files);
  }

  /** Against an expected MD5 that no digest can equal, a download that
      completes ends in an MD5 mismatch and leaves the downloaded bytes on
      disk: the existing file is never accepted and the new one never matches. */
  lemma UnmatchableMd5KeepsDownload(cfg: Config, env: Environment, token: GoString, asset: Asset,
                                    out: Outputs, files: map<GoString, GoString>, body: Body)
    requires forall b :: IsMd5Hex(env.md5hex(b))
    requires Found(cfg, env, token, asset)
    requires !IsMd5Hex(ExpectedMd5(asset))
    requires !(env.mkdir.MkdirError? && !env.mkdir.alreadyExists) && env.createError.None?
    requires env.newRequest(asset.downloadUrl).None?
    requires env.download(Get(asset.downloadUrl, AuthorizationHeader(token))).Response?
    requires env.download(Get(asset.downloadUrl, AuthorizationHeader(token))).status == 200
    requires env.download(Get(asset.downloadUrl, AuthorizationHeader(token))).body == body
    requires body.failure.None?
    ensures var run := Read(cfg, env, out, files);
      && run.outcome == Failed(Md5Mismatch)
      && run.files == files[DestinationPath(cfg) := Concat(body.chunks)]
      && |run.sent| == 2
  {
    var path := DestinationPath(cfg);
    if path in files {
      assert IsMd5Hex(env.md5hex(files[path]));
    }
    assert !CacheSatisfied(files, path, ExpectedMd5(asset), env);
    assert IsMd5Hex(env.md5hex(Concat(body.chunks)));
    DownloadedAndVerified(cfg, env, token, asset, out, files, body);
  }

  /** A copy that fails midway is not rolled back: the destination keeps the
      bytes written so far and `asset_size` is left as it was. */
  lemma CopyFailureKeepsPartialFile(cfg: Config, env: Environment, token: GoString, asset: Asset,
                                    out: Outputs, files: map<GoString, GoString>)
    requires Found(cfg, env, token, asset)
    requires Read(cfg, env, out, files).outcome.Failed?
    requires Read(cfg, env, out, files).outcome.error.DownloadCopyFailed?
    ensures var run := Read(cfg, env, out, files);
      var reply := env.download(Get(asset.downloadUrl, AuthorizationHeader(token)));
      && reply.Response? && reply.status == 200 && reply.body.failure.Some?
      && run.outcome.error.cause == reply.body.failure.value
      && run.files == files[DestinationPath(cfg) := Concat(reply.body.chunks)]
      && run.outputs.assetSize == out.assetSize
  {
  }

  /** Only the destination file can change. */
  lemma OnlyDestinationWritten(cfg: Config, env: Environment, out: Outputs, files: map<GoString, GoString>)
    ensures var run := Read(cfg, env, out, files); var path := DestinationPath(cfg);
      run.files == files || (path in run.files && run.files == files[path := run.files[path]])
  {
    match SelectToken(cfg.username, cfg.password, cfg.basicAuth, env.secrets)
    case Failure(_) =>
    case Success(token) =>
      match SearchOf(cfg, env, token).result
      case Failure(_) =>
      case Success(asset) =>
        DownloadFrame(env, token, asset, DestinationPath(cfg), Recorded(out, asset, DestinationPath(cfg)), files);
  }

  /** At most two requests go out, the search first and the download second,
      and every one carries `Basic <token>` exactly when the token is not empty. */
  lemma RequestsSent(cfg: Config, env: Environment, token: GoString, out: Outputs, files: map<GoString, GoString>)
    requires SelectToken(cfg.username, cfg.password, cfg.basicAuth, env.secrets) == Success(token)
    ensures var run := Read(cfg, env, out, files);
      && |run.sent| <= 2
      && (run.sent != [] ==> run.sent[0] == Get(SearchUrl(cfg.server, Repository(), cfg.name), AuthorizationHeader(token)))
      && (forall q :: q in run.sent ==> q.authorization == AuthorizationHeader(token))
      && (forall q :: q in run.sent ==> (q.authorization.None? <==> token == []))
  {
    var search := SearchOf(cfg, env, token);
    match search.result
    case Failure(_) =>
    case Success(asset) =>
      DownloadFrame(env, token, asset, DestinationPath(cfg), Recorded(out, asset, DestinationPath(cfg)), files);
  }

  /** Without any credential setting neither request carries an
      `Authorization` header. */
  lemma NoCredentialsNoHeader(cfg: Config, env: Environment, out: Outputs, files: map<GoString, GoString>)
    requires cfg.username == [] && cfg.password == [] && cfg.basicAuth == []
    ensures forall q :: q in Read(cfg, env, out, files).sent ==> q.authorization.None?
  {
    RequestsSent(cfg, env, [], out, files);
  }

  /** Reading again after a success, with the same answers, is a cache hit:
      nothing is downloaded and nothing changes, provided the file can be read. */
  lemma SuccessIsCached(cfg: Config, env: Environment, out: Outputs, files: map<GoString, GoString>)
    requires Read(cfg, env, out, files).outcome == Ok
    requires !env.cacheReadFails
    ensures var first := Read(cfg, env, out, files);
      var again := Read(cfg, env, first.outputs, first.files);
      && again.outcome == Ok && again.files == first.files && again.outputs == first.outputs
      && |again.sent| == 1
  {
    var token := SelectToken(cfg.username, cfg.password, cfg.basicAuth, env.secrets).value;
    var asset := SearchOf(cfg, env, token).result.value;
    var first := Read(cfg, env, out, files);
    OkMeansVerified(cfg, env, out, files);
    FieldsRecorded(cfg, env, token, asset, out, files);
    CacheHit(cfg, env, token, asset, first.outputs, first.files);
  }

  /** Reading again after a genuine mismatch downloads again and fails the same
      way: the read is deterministic and retries nothing by itself. */
  lemma MismatchRepeats(cfg: Config, env: Environment, out: Outputs, files: map<GoString, GoString>)
    requires Read(cfg, env, out, files).outcome == Failed(Md5Mismatch)
    requires !env.rehashReadFails
    ensures var first := Read(cfg, env, out, files);
      var again := Read(cfg, env, first.outputs, first.files);
      && again.outcome == Failed(Md5Mismatch) && again.files == first.files
      && again.outputs == first.outputs && again.sent == first.sent && |again.sent| == 2
  {
    var token := SelectToken(cfg.username, cfg.password, cfg.basicAuth, env.secrets).value;
    var asset := SearchOf(cfg, env, token).result.value;
    var first := Read(cfg, env, out, files);
    var path := DestinationPath(cfg);
    MismatchKeepsDownload(cfg, env, out, files);
    var reply := env.download(Get(asset.downloadUrl, AuthorizationHeader(token)));
    var data := Concat(reply.body.chunks);
    assert first.files == files[path := data];
    assert first.outputs == Recorded(out, asset, path).(assetSize := Decimal(|data|));
    assert env.md5hex(data) != ExpectedMd5(asset);
    assert !CacheSatisfied(first.files, path, ExpectedMd5(asset), env);
    assert first.files[path := []][path := data] == first.files;
    assert Recorded(first.outputs, asset, path).(assetSize := Decimal(|data|)) == first.outputs;
  }
}
