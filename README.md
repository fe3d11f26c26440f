# Nexus raw dependency data source, modelled in Dafny

This project models the read of the `dependencies_nexus_raw` data source of the
Terraform provider `terraform-provider-dependencies`. One read does four things:

1. It chooses the credentials: no `Authorization` header, a Basic token made
   from `username:password`, or a pre-encoded `basic_auth` token. A password
   that starts with `gcp_secret!` is looked up in Google Cloud Secret Manager.
2. It searches the `raw-trusted` repository of a Nexus server for exactly one
   asset named `name`.
3. It records the asset's id, URL, expected MD5, content type and local path as
   computed attributes.
4. It then either accepts the file already at `destination/name`, because its
   MD5 matches, or downloads the file there and checks the MD5 of what was written.

Go strings are byte sequences (`Common.GoString`). The modules are:

- `Common`: strings, prefixes, first occurrence, `strings.Replace(.., 1)`, and
  `%d` printing.
- `Base64`: the encoder, and the decoder that Go's `base64.StdEncoding` uses for
  the validity test. This is the alphabet with padding of section 4 of RFC 4648.
  Like Go's decoder, it skips CR and LF anywhere, requires a padded final quantum
  and ignores leftover bits.
- `QueryEscape`: `url.QueryEscape` and its inverse.
- `Credentials`: `resolvePassword` and the credential decision tree.
- `Search`: the `Asset` records, the search URL and `searchRawRepo`'s ordered
  acceptance checks.
- `Fetch`:
  - `Read` is the specification of the whole read. Given the settings, the
    environment and the state before, it gives the outcome, the attributes, the
    files and the requests sent.
  - `ReadDependencyNexusRaw` and `DownloadAsset` do the same steps
    imperatively. They work on a `ResourceData` object (the attributes) and a
    `Host` (the file map and the log of HTTP requests sent).
    `ReadDependencyNexusRaw` is proved to agree with `Read`, and `DownloadAsset`
    with `Download`, the part of `Read` from the directory creation on.
- `FetchProperties`: what a read guarantees, proved about `Read`.

Several parts of the environment are parameters, held in a `Fetch.Environment`
value:

- the secret store;
- HTTP request construction;
- the search and download services;
- file system faults;
- the MD5 digest, as an uninterpreted function returning lower-case hex.

The model follows the code in the following points:

- A missing `md5` checksum key is not an error of its own. It reads as the
  empty string (`internal/provider/data_source.go:232`). Such a read never
  succeeds (`FetchProperties.MissingMd5NeverSucceeds`), provided the digest
  always prints 32 hex digits. The same holds for any expected value not of
  that form (`FetchProperties.UnmatchableMd5NeverSucceeds`). When the download
  itself completes, the read ends with "Downloaded md5 does not match expected
  value" and leaves the downloaded bytes on disk
  (`FetchProperties.UnmatchableMd5KeepsDownload`). Otherwise it ends with the
  error of the download step that failed.
- The data source id is the expected MD5, not the path (line 242).
- The search reply's `Content-Type` must equal `application/json` exactly
  (line 144).
- If reopening or re-reading the downloaded file fails, the read reports an MD5
  mismatch (lines 317-331).
- `asset_size` is set after the copy (line 314). It is set again, to the same
  value, after a successful re-hash (line 325).

## Model

| member | source | states |
|---|---|---|
| Common.RemoveFirst | internal/provider/data_source.go:169 | `strings.Replace(s, p, "", 1)`: without an occurrence the string is unchanged, otherwise exactly `|p|` bytes are removed |
| Common.RemoveFirstOfPrefix | internal/provider/data_source.go:168-169 | when the string starts with the marker, removing its first occurrence leaves exactly the rest after the prefix |
| Common.Decimal | internal/provider/data_source.go:257 | `%d` of a size is a non-empty string of decimal digits with no leading zero |
| Common.DecimalRoundTrip | internal/provider/data_source.go:257 | the printed size reads back as the number printed |
| Common.DecimalInjective | internal/provider/data_source.go:314 | different sizes give different `asset_size` strings |
| Base64.Encode | internal/provider/data_source.go:212 | the encoding has length 4·⌈n/3⌉ and uses only the alphabet and `=` |
| Base64.StripLineBreaks | internal/provider/data_source.go:220 | what the decoder reads has no CR or LF and is no longer than the input |
| Base64.Decode | internal/provider/data_source.go:220 | `base64.StdEncoding.DecodeString`; its contract is carried by DecodeEncode, DecodeSkipsLineBreak, CrLfIgnored, RefusesForeignByte, UnpaddedRefused, LeftoverBitsIgnored and ValidTokenLength |
| Base64.IsValid | internal/provider/data_source.go:220-222 | the `basic_auth` check; EncodeIsValid, RefusesForeignByte, NotBase64Refused, UnpaddedRefused and ValidTokenLength state when it holds |
| Base64.DecodeEncode | internal/provider/data_source.go:212 | decoding an encoding gives back the bytes encoded |
| Base64.EncodeIsValid | internal/provider/data_source.go:212 | every encoding passes the `basic_auth` validity test |
| Base64.DecodeSkipsLineBreak | internal/provider/data_source.go:220 | a CR or LF anywhere in the token does not change the decoding |
| Base64.DecodeQuantaLength | internal/provider/data_source.go:220 | without line breaks, a decodable text is whole quanta of four symbols and yields at most three bytes per quantum |
| Base64.ValidTokenLength | internal/provider/data_source.go:220-222 | a valid `basic_auth` token is whole quanta once CR and LF are removed, and decodes to at most three bytes per quantum |
| Base64.CrLfIgnored | internal/provider/data_source.go:220 | a CRLF pair anywhere in the token does not change the decoding |
| Base64.RefusesForeignByte | internal/provider/data_source.go:220-222 | a byte outside the alphabet, `=` and line breaks makes the token invalid |
| Base64.RfcTestVectorsShort | internal/provider/data_source.go:212 | the test vectors "", "f", "fo", "foo" of section 10 of RFC 4648 |
| Base64.RfcTestVectorFoob | internal/provider/data_source.go:212 | "foob" encodes as "Zm9vYg==" |
| Base64.RfcTestVectorFooba | internal/provider/data_source.go:212 | "fooba" encodes as "Zm9vYmE=" |
| Base64.RfcTestVectorFoobar | internal/provider/data_source.go:212 | "foobar" encodes as "Zm9vYmFy" |
| Base64.NotBase64Refused | internal/provider/data_source.go:220-222 | "not-base64!!" is not a valid token |
| Base64.UnpaddedRefused | internal/provider/data_source.go:220-222 | an unpadded final quantum ("Zm9vYg") is refused |
| Base64.LeftoverBitsIgnored | internal/provider/data_source.go:220-222 | non-zero leftover bits in a padded quantum ("Zm9vYh==") are accepted, as by Go's non-strict decoder |
| QueryEscape.Escape | internal/provider/data_source.go:114 | the escaped name holds only unreserved bytes, `+`, `%` and upper-case hex digits, so never `&`; at most three bytes per input byte |
| QueryEscape.UnescapeEscape | internal/provider/data_source.go:114 | unescaping the escaped name gives the name back |
| QueryEscape.EscapeInjective | internal/provider/data_source.go:114 | different names give different escaped names |
| Credentials.BasicPair | internal/provider/data_source.go:212 | `username:password` holds the username, one `:` and the password, each recoverable by position |
| Credentials.ResolvePassword | internal/provider/data_source.go:167-188 | `resolvePassword`; PlainPasswordUnchanged and MarkedPasswordLooksUpRest state its contract |
| Credentials.SelectToken | internal/provider/data_source.go:204-224 | the credential decision tree; ConflictWins, HalfPairRefused, PairToken, TokenOnly, EmptyTokenIffNoCredentials and TokenIsBase64 state its contract |
| Credentials.PlainPasswordUnchanged | internal/provider/data_source.go:167-168 | a password without `gcp_secret!` is returned unchanged and the store is not used |
| Credentials.MarkedPasswordLooksUpRest | internal/provider/data_source.go:168-188 | with the marker, the store is asked for the password minus its leading marker, and its payload or error is the result |
| Credentials.ConflictWins | internal/provider/data_source.go:204-215 | `basic_auth` together with username and password is the conflict error, whatever the store answers |
| Credentials.HalfPairRefused | internal/provider/data_source.go:216-217 | exactly one of username and password is the "provide both" error, whatever `basic_auth` holds |
| Credentials.PairToken | internal/provider/data_source.go:204-212 | username and password give the base64 encoding of `username:resolved`, which decodes back to it; a store failure is "Failed to resolve password" |
| Credentials.TokenOnly | internal/provider/data_source.go:218-223 | `basic_auth` alone is forwarded unchanged if and only if it is valid base64, and refused otherwise |
| Credentials.EmptyTokenIffNoCredentials | internal/provider/data_source.go:198-224 | the token is empty if and only if no credential setting is given |
| Credentials.TokenIsBase64 | internal/provider/data_source.go:204-224 | every accepted token is valid base64 |
| Search.AuthorizationHeader | internal/provider/data_source.go:125-128 | no header for the empty token, otherwise `Basic <token>` |
| Search.SearchUrlFields | internal/provider/data_source.go:114 | in the search query, the text before the first `&` unescapes to the asset name and the rest is `repository=` with the repository verbatim |
| Search.SearchUrl | internal/provider/data_source.go:114 | the search URL; SearchUrlFields and QueryFields state how its fields read back |
| Search.QueryFields | internal/provider/data_source.go:114 | after any endpoint, the query text up to the first `&` unescapes to the name and the rest is what followed the `&` |
| Search.SearchRawRepo | internal/provider/data_source.go:112-165 | at most one request is sent, to the search URL with the credential header, and a found asset implies it was sent |
| Search.AcceptedExactly | internal/provider/data_source.go:138-164 | a reply is accepted if and only if its status is 200, its content type is exactly `application/json`, its body decodes and it lists one asset, which is returned |
| Search.AcceptReply | internal/provider/data_source.go:138-164 | the ordered reply checks; AcceptedExactly, ChecksInOrder and CharsetRefused state its contract |
| Search.SearchResult | internal/provider/data_source.go:112-165 | the search finds an asset if and only if the request is built and the reply passes the checks, the asset is the only item, and each failure is the request error or the reply check's |
| Search.ChecksInOrder | internal/provider/data_source.go:138-162 | status before content type before item count; a wrong count is reported with the count |
| Search.CharsetRefused | internal/provider/data_source.go:142-146 | `application/json; charset=utf-8` is refused as an invalid content type |
| Search.SearchHeader | internal/provider/data_source.go:125-128 | the search request carries a header exactly when the token is not empty |
| Fetch.DestinationPath | internal/provider/data_source.go:235 | the path is the destination, one `/` and the name, each recoverable by position |
| Fetch.ExpectedMd5 | internal/provider/data_source.go:232 | the Go map lookup of `md5`; FieldsRecorded states the present and missing key cases |
| Fetch.CacheSatisfied | internal/provider/data_source.go:246-256 | the cache test; CacheHit, SuccessIsCached and MismatchRepeats state its consequences |
| Fetch.Read | internal/provider/data_source.go:191-331 | the whole read as a function; ReadDependencyNexusRaw and the FetchProperties lemmas state its contract |
| Fetch.Download | internal/provider/data_source.go:264-331 | the download branch as a function; DownloadAsset, DownloadFrame, TruncatedBeforeGet, DownloadedAndVerified, CopyFailureKeepsPartialFile and MismatchKeepsDownload state its contract |
| Fetch.ResourceData.RecordAsset | internal/provider/data_source.go:232-242 | the id, URL, expected MD5, content type and path are set from the asset, and the id is the expected MD5; the size is kept |
| Fetch.ResourceData.SetAssetSize | internal/provider/data_source.go:314 | `asset_size` becomes the printed size, and nothing else changes |
| Fetch.Host.Send | internal/provider/data_source.go:292 | the request is appended to the log and no file changes |
| Fetch.Host.Create | internal/provider/data_source.go:274 | the file exists and is empty afterwards, and no other file changes |
| Fetch.Host.CopyInto | internal/provider/data_source.go:308 | the file is extended by the body's chunks in order, no other file changes, and the result is the number of bytes written |
| Fetch.ReadDependencyNexusRaw | internal/provider/data_source.go:191-331 | the imperative read ends with the outcome, attributes, files and request log that `Read` specifies |
| Fetch.DownloadAsset | internal/provider/data_source.go:264-331 | the imperative download ends with the outcome, attributes, files and requests that `Download` specifies |
| FetchProperties.DownloadFrame | internal/provider/data_source.go:264-331 | the download changes only `asset_size` and the destination file, and sends at most the one download request, which a success needed |
| FetchProperties.CredentialErrorSendsNothing | internal/provider/data_source.go:204-224 | a credential error ends the read with no request sent, no attribute set and no file touched |
| FetchProperties.ConflictBeforeSearch | internal/provider/data_source.go:213-215 | the conflict error is returned before any search request |
| FetchProperties.HalfPairBeforeSearch | internal/provider/data_source.go:216-217 | the "provide both" error is returned before any search request |
| FetchProperties.MalformedTokenBeforeSearch | internal/provider/data_source.go:218-223 | `basic_auth` "not-base64!!" is refused before any network call |
| FetchProperties.SearchErrorChangesNothing | internal/provider/data_source.go:226-230 | a failed search sets nothing, touches no file and sends no download request |
| FetchProperties.FieldsRecorded | internal/provider/data_source.go:232-242 | after a successful search the attributes come from the asset, a missing `md5` key gives `""`, the id is the MD5 and the path is `destination/name`, whatever happens later |
| FetchProperties.CacheHit | internal/provider/data_source.go:244-262 | an existing file with the expected digest is a success, `asset_size` is its length, no file changes and the search is the only request |
| FetchProperties.EmptyCachedFile | internal/provider/data_source.go:252-258 | an empty cached file with the expected digest gives `asset_size` "0" |
| FetchProperties.TruncatedBeforeGet | internal/provider/data_source.go:273-303 | a download request that cannot be built, fails or gets a non-200 status leaves an empty destination file |
| FetchProperties.DownloadedAndVerified | internal/provider/data_source.go:305-331 | after a complete copy the file holds the body, `asset_size` is its length, and the read succeeds if and only if the re-read file has the expected digest, and fails with an MD5 mismatch otherwise |
| FetchProperties.MismatchKeepsDownload | internal/provider/data_source.go:305-331 | after an MD5 mismatch the destination holds exactly the downloaded bytes |
| FetchProperties.CopyFailureKeepsPartialFile | internal/provider/data_source.go:305-314 | a copy that fails midway is not rolled back: the destination keeps the bytes written and `asset_size` is left unset |
| FetchProperties.OkMeansVerified | internal/provider/data_source.go:244-331 | on success the destination exists, its digest is `asset_md5`, `asset_size` is its length and the id is the MD5 |
| FetchProperties.MissingMd5NeverSucceeds | internal/provider/data_source.go:232 | with a 32-digit digest, an asset without an `md5` checksum, which reads as `""`, never succeeds |
| FetchProperties.UnmatchableMd5NeverSucceeds | internal/provider/data_source.go:316-331 | with a digest that always prints 32 lower-case hex digits, an expected MD5 of any other form (empty, upper case, truncated) never succeeds |
| FetchProperties.UnmatchableMd5KeepsDownload | internal/provider/data_source.go:244-331 | against such an expected MD5, a download that completes ends in an MD5 mismatch with the downloaded bytes on disk |
| FetchProperties.OnlyDestinationWritten | internal/provider/data_source.go:244-331 | no file other than the destination changes |
| FetchProperties.RequestsSent | internal/provider/data_source.go:125-128 | at most two requests, the search first, each with `Basic <token>` exactly when the token is not empty |
| FetchProperties.NoCredentialsNoHeader | internal/provider/data_source.go:286-289 | without any credential setting no request carries an `Authorization` header |
| FetchProperties.SuccessIsCached | internal/provider/data_source.go:244-262 | reading again after a success is a cache hit: nothing is downloaded and nothing changes |
| FetchProperties.MismatchRepeats | internal/provider/data_source.go:316-331 | reading again after a genuine mismatch downloads again and fails the same way |

## Left out

- JSON decoding of the search reply (line 150) is not modelled. A search body is taken as already decoded into assets, or as the decoder's error.
- The HTTP transport is left out. `http.Client` becomes an oracle from a request to a reply, and `http.NewRequestWithContext` an oracle that may refuse a URL. Status codes are unbounded naturals.
- Google Cloud Secret Manager (lines 172-186) becomes an oracle from a secret name to a payload or an error, because it is a foreign SDK call.
- MD5 is an uninterpreted function on bytes. Where a property needs its output to be 32 lower-case hex digits, the lemma takes that as a premise.
- `filepath.Dir` and `os.MkdirAll`: only the outcome is modelled (made, already exists, or another error). The directory tree itself is left out.
- `os.Stat` and `os.Open` are modelled only as "the file is present" plus one fault each, for the cache read and for the re-read.
- A cache-check file handle that is never closed, and the deferred closes, are not modelled, because the files are a map rather than handles.
- `tflog` logging and the Terraform schema (lines 25-89) are framework wiring and are left out.
- `internal/provider/provider.go`, `main.go` and `internal/provider/provider_test.go` are not part of this model. They only register the provider and start the plugin.
- Concurrent reads of the same destination are out of scope.
- Error messages are datatype constructors. The formatted text of each diagnostic is not modelled.
