/** The read of the `dependencies_nexus_raw` data source
    (`dataSourceDependencyNexusRawRead`): select credentials, search the
    `raw-trusted` repository for the asset, record the asset's fields, then
    either accept the file already at `destination/name` because its MD5 matches,
    or download it there and check the MD5 of what was written.

    `Read` is the specification: the outcome, the computed fields, the files and
    the requests sent, as a function of the settings, the environment and the
    state before. `ReadDependencyNexusRaw` performs the same steps on a
    `ResourceData` object and a `Host` (files and network log) and is proved to
    agree with it. */
module Fetch {
  import opened Common
  import opened Search
  import opened Credentials

  /** The data source's settings. */
  datatype Config = Config(
    server: GoString,        // nexus_server
    name: GoString,          // name
    destination: GoString,   // destination
    username: GoString,
    password: GoString,
    basicAuth: GoString)     // basic_auth

  /** How the parent directory creation ends; an "already exists" error is
      ignored like success. */
  datatype MkdirResult = Made | MkdirError(cause: GoString, alreadyExists: bool)

  /** A download body as `io.Copy` sees it: the chunks read from the network,
      then end of stream or the read or write error that stops the copy. */
  datatype Body = Body(chunks: seq<GoString>, failure: Option<GoString>)

  /** Everything outside the model's own state: the secret store, request
      construction, the two remote services, the MD5 digest as lower-case hex,
      and the file system faults. */
  datatype Environment = Environment(
    secrets: SecretStore,
    newRequest: RequestBuilder,
    search: SearchService,
    download: Request -> Reply<Body>,
    md5hex: GoString -> GoString,
    cacheReadFails: bool,          // opening or reading the existing file fails
    mkdir: MkdirResult,
    createError: Option<GoString>,
    rehashReadFails: bool)         // reopening or reading the downloaded file fails

  /** The computed attributes of the data source and its id. */
  datatype Outputs = Outputs(
    id: GoString,
    assetId: GoString,
    assetUrl: GoString,
    assetMd5: GoString,
    assetContentType: GoString,
    assetPath: GoString,
    assetSize: GoString)

  datatype ReadError =
    | CredentialsRejected(credentialError: CredentialError)
    | AssetNotRetrieved(searchError: SearchError)   // "Error retrieving asset information: ..."
    | DirectoryNotCreated(cause: GoString)          // "Failed to create directory to download asset: ..."
    | FileNotCreated(cause: GoString)               // "Failed to create file for downloading: ..."
    | DownloadRequestNotBuilt(cause: GoString)      // "Error creating request: ..."
    | DownloadRequestFailed(cause: GoString)        // "Error making request: ..."
    | DownloadStatus(code: nat)                     // "HTTP request error. Response code: %d"
    | DownloadCopyFailed(cause: GoString)           // "Error downloading to file: ..."
    | Md5Mismatch                                   // "Downloaded md5 does not match expected value"

  /** No diagnostics, or the one error diagnostic returned. */
  datatype Outcome = Ok | Failed(error: ReadError)

  /** One run of the read: its outcome, the outputs afterwards, the files
      afterwards and the requests sent, in order. */
  datatype Run = Run(outcome: Outcome, outputs: Outputs, files: map<GoString, GoString>, sent: seq<Request>)

  function Repository(): GoString
  {
    Str("raw-trusted")
  }

  function Md5Key(): GoString
  {
    Str("md5")
  }

  /** The expected digest: the asset's `md5` checksum, the empty string when the
      key is missing (a Go map lookup). */
  function ExpectedMd5(asset: Asset): GoString
  {
    if Md5Key() in asset.checksum then asset.checksum[Md5Key()] else []
  }

  /** Where the asset is kept: `destination + "/" + name`. */
  function DestinationPath(cfg: Config): (p: GoString)
    ensures |p| == |cfg.destination| + 1 + |cfg.name|
    ensures p[..|cfg.destination|] == cfg.destination && p[|cfg.destination|] == 47
    ensures p[|cfg.destination| + 1..] == cfg.name
  {
    cfg.destination + [47] + cfg.name
  }

  /** The fields set as soon as the asset is known. */
  function Recorded(out: Outputs, asset: Asset, path: GoString): Outputs
  {
    out.(assetId := asset.id, assetUrl := asset.downloadUrl, assetMd5 := ExpectedMd5(asset),
         assetContentType := asset.contentType, assetPath := path, id := ExpectedMd5(asset))
  }

  /** The cache check: the file exists, can be read, and its digest is exactly
      the expected one. */
  predicate CacheSatisfied(files: map<GoString, GoString>, path: GoString, expected: GoString, env: Environment)
  {
    path in files && !env.cacheReadFails && env.md5hex(files[path]) == expected
  }

  /** The bytes of a stream of chunks, in order. */
  function Concat(chunks: seq<GoString>): GoString
  {
    if chunks == [] then [] else chunks[0] + Concat(chunks[1..])
  }

  lemma {:induction false} ConcatSnoc(chunks: seq<GoString>, c: GoString)
    ensures Concat(chunks + [c]) == Concat(chunks) + c
  {
    if chunks != [] {
      assert (chunks + [c])[1..] == chunks[1..] + [c];
      ConcatSnoc(chunks[1..], c);
    }
  }

  /** The read. */
  function Read(cfg: Config, env: Environment, out: Outputs, files: map<GoString, GoString>): Run
  {
    match SelectToken(cfg.username, cfg.password, cfg.basicAuth, env.secrets)
    case Failure(e) => Run(Failed(CredentialsRejected(e)), out, files, [])
    case Success(token) =>
      var search := SearchRawRepo(cfg.server, Repository(), cfg.name, token, env.newRequest, env.search);
      match search.result
      case Failure(e) => Run(Failed(AssetNotRetrieved(e)), out, files, search.sent)
      case Success(asset) =>
        var path := DestinationPath(cfg);
        var recorded := Recorded(out, asset, path);
        if CacheSatisfied(files, path, ExpectedMd5(asset), env) then
          Run(Ok, recorded.(assetSize := Decimal(|files[path]|)), files, search.sent)
        else
          var download := Download(env, token, asset, path, recorded, files);
          download.(sent := search.sent + download.sent)
  }

  /** The download branch of the read, from the directory creation on; its
      `sent` holds only the download request, if one is sent. */
  function Download(env: Environment, token: GoString, asset: Asset, path: GoString,
                    out: Outputs, files: map<GoString, GoString>): Run
  {
    if env.mkdir.MkdirError? && !env.mkdir.alreadyExists then
      Run(Failed(DirectoryNotCreated(env.mkdir.cause)), out, files, [])
    else if env.createError.Some? then
      Run(Failed(FileNotCreated(env.createError.value)), out, files, [])
    else
      var created := files[path := []];
      match env.newRequest(asset.downloadUrl)
      case Some(cause) => Run(Failed(DownloadRequestNotBuilt(cause)), out, created, [])
      case None =>
        var request := Get(asset.downloadUrl, AuthorizationHeader(token));
        var sent' := [request];
        match env.download(request)
        case Unreachable(cause) => Run(Failed(DownloadRequestFailed(cause)), out, created, sent')
        case Response(status, _, body) =>
          if status != 200 then Run(Failed(DownloadStatus(status)), out, created, sent')
          else
            var data := Concat(body.chunks);
            var written := files[path := data];
            if body.failure.Some? then Run(Failed(DownloadCopyFailed(body.failure.value)), out, written, sent')
            else
              var sized := out.(assetSize := Decimal(|data|));
              if !env.rehashReadFails && env.md5hex(data) == ExpectedMd5(asset) then Run(Ok, sized, written, sent')
              else Run(Failed(Md5Mismatch), sized, written, sent')
  }

  /** Terraform's `schema.ResourceData` for this data source, reduced to what the
      read sets. */
  class ResourceData {
    var id: GoString
    var assetId: GoString
    var assetUrl: GoString
    var assetMd5: GoString
    var assetContentType: GoString
    var assetPath: GoString
    var assetSize: GoString

    function Snapshot(): Outputs
      reads this
    {
      Outputs(id, assetId, assetUrl, assetMd5, assetContentType, assetPath, assetSize)
    }

    /** The six `d.Set`/`d.SetId` calls made once the asset is known. */
    method RecordAsset(asset: Asset, path: GoString)
      modifies this
      ensures Snapshot() == Recorded(old(Snapshot()), asset, path)
    {
      var expected := ExpectedMd5(asset);
      assetId := asset.id;
      assetUrl := asset.downloadUrl;
      assetMd5 := expected;
      assetContentType := asset.contentType;
      assetPath := path;
      id := expected;
    }

    method SetAssetSize(size: nat)
      modifies this
      ensures Snapshot() == old(Snapshot()).(assetSize := Decimal(size))
    {
      assetSize := Decimal(size);
    }
  }

  /** The machine the provider runs on: its files, by path, and the log of the
      HTTP requests it has sent. */
  class Host {
    var files: map<GoString, GoString>
    var sent: seq<Request>

    constructor (files: map<GoString, GoString>)
      ensures this.files == files && sent == []
    {
      this.files := files;
      sent := [];
    }

    method Send(request: Request)
      modifies this
      ensures sent == old(sent) + [request] && files == old(files)
    {
      sent := sent + [request];
    }

    /** `os.Create`: the file exists afterwards and is empty. */
    method Create(path: GoString)
      modifies this
      ensures files == old(files)[path := []] && sent == old(sent)
    {
      files := files[path := []];
    }

    /** `io.Copy` into an open file: the chunks are appended one by one; the
      result is the number of bytes written. */
    method CopyInto(path: GoString, chunks: seq<GoString>) returns (size: nat)
      requires path in files
      modifies this
      ensures files == old(files)[path := old(files[path]) + Concat(chunks)]
      ensures size == |Concat(chunks)| && sent == old(sent)
    {
      ghost var before := files[path];
      size := 0;
      var i := 0;
      assert chunks[..0] == [];
      while i < |chunks|
        invariant 0 <= i <= |chunks|
        invariant path in files && files[path] == before + Concat(chunks[..i])
        invariant forall q :: q != path ==> (q in files <==> q in old(files))
        invariant forall q :: q != path && q in files ==> files[q] == old(files)[q]
        invariant size == |Concat(chunks[..i])| && sent == old(sent)
      {
        ConcatSnoc(chunks[..i], chunks[i]);
        assert chunks[..i + 1] == chunks[..i] + [chunks[i]];
        files := files[path := files[path] + chunks[i]];
        size := size + |chunks[i]|;
        i := i + 1;
      }
      assert chunks[..i] == chunks;
    }
  }

  /** `dataSourceDependencyNexusRawRead`. */
  method ReadDependencyNexusRaw(cfg: Config, env: Environment, d: ResourceData, host: Host)
    returns (outcome: Outcome)
    modifies d, host
    ensures var run := Read(cfg, env, old(d.Snapshot()), old(host.files));
      && outcome == run.outcome && d.Snapshot() == run.outputs
      && host.files == run.files && host.sent == old(host.sent) + run.sent
  {
    ghost var before, files := d.Snapshot(), host.files;
    var credentials := SelectToken(cfg.username, cfg.password, cfg.basicAuth, env.secrets);
    if credentials.Failure? {
      return Failed(CredentialsRejected(credentials.error));
    }
    var token := credentials.value;

    var search := SearchRawRepo(cfg.server, Repository(), cfg.name, token, env.newRequest, env.search);
    if search.sent != [] {
      host.Send(search.sent[0]);
      assert host.sent == old(host.sent) + search.sent;
    }
    if search.result.Failure? {
      return Failed(AssetNotRetrieved(search.result.error));
    }
    var asset := search.result.value;
    var expected := ExpectedMd5(asset);
    var path := DestinationPath(cfg);
    d.RecordAsset(asset, path);
    ghost var recorded := Recorded(before, asset, path);
    assert host.files == files && host.sent == old(host.sent) + search.sent;

    if CacheSatisfied(host.files, path, expected, env) {
      d.SetAssetSize(|host.files[path]|);
      assert Read(cfg, env, before, files) == Run(Ok, recorded.(assetSize := Decimal(|files[path]|)), files, search.sent);
      return Ok;
    }
    ghost var download := Download(env, token, asset, path, recorded, files);
    assert Read(cfg, env, before, files) == download.(sent := search.sent + download.sent);
    outcome := DownloadAsset(env, token, asset, path, d, host);
  }

  /** The download branch: directory, truncation, GET, copy and re-hash. */
  method DownloadAsset(env: Environment, token: GoString, asset: Asset, path: GoString,
                       d: ResourceData, host: Host)
    returns (outcome: Outcome)
    modifies d, host
    ensures var run := Download(env, token, asset, path, old(d.Snapshot()), old(host.files));
      && outcome == run.outcome && d.Snapshot() == run.outputs
      && host.files == run.files && host.sent == old(host.sent) + run.sent
  {
    var expected := ExpectedMd5(asset);
    if env.mkdir.MkdirError? && !env.mkdir.alreadyExists {
      return Failed(DirectoryNotCreated(env.mkdir.cause));
    }
    if env.createError.Some? {
      return Failed(FileNotCreated(env.createError.value));
    }
    host.Create(path);

    var buildError := env.newRequest(asset.downloadUrl);
    if buildError.Some? {
      return Failed(DownloadRequestNotBuilt(buildError.value));
    }
    var request := Get(asset.downloadUrl, AuthorizationHeader(token));
    host.Send(request);
    var reply := env.download(request);
    if reply.Unreachable? {
      return Failed(DownloadRequestFailed(reply.cause));
    }
    if reply.status != 200 {
      return Failed(DownloadStatus(reply.status));
    }

    var size := host.CopyInto(path, reply.body.chunks);
    ghost var data := Concat(reply.body.chunks);
    assert [] + data == data;
    assert host.files == old(host.files)[path := data];
    if reply.body.failure.Some? {
      return Failed(DownloadCopyFailed(reply.body.failure.value));
    }
    d.SetAssetSize(size);

    if !env.rehashReadFails {
      var content := host.files[path];
      assert content == data;
      if env.md5hex(content) == expected {
        d.SetAssetSize(|content|);
        return Ok;
      }
    }
    return Failed(Md5Mismatch);
  }
}
