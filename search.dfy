/** `searchRawRepo`: the search request against the repository's REST API and
    the checks applied to its response. The network is an oracle from a request
    to a reply; JSON decoding is taken as done, the reply body being either the
    decoded search response or the decoder's error. */
module Search {
  import opened Common
  import QueryEscape

  /** One asset record of the search response. */
  datatype Asset = Asset(
    downloadUrl: GoString,
    path: GoString,
    id: GoString,
    repository: GoString,
    format: GoString,
    checksum: map<GoString, GoString>,
    contentType: GoString,
    lastModified: GoString)

  datatype SearchAssetsResponse = SearchAssetsResponse(items: seq<Asset>, continuationToken: GoString)

  /** A GET request; `authorization` is the `Authorization` header, if any. */
  datatype Request = Get(url: GoString, authorization: Option<GoString>)

  /** What comes back for a request: a transport failure, or a response with its
      status code, its `Content-Type` header (empty when absent) and its body. */
  datatype Reply<B> =
    | Unreachable(cause: GoString)
    | Response(status: nat, contentType: GoString, body: B)

  /** The body of a search reply after JSON decoding. */
  type SearchBody = Result<SearchAssetsResponse, GoString>

  /** Builds an HTTP request for a URL: `None`, or the error
      `http.NewRequestWithContext` reports for it. */
  type RequestBuilder = GoString -> Option<GoString>

  type SearchService = Request -> Reply<SearchBody>

  datatype SearchError =
    | RequestNotBuilt(cause: GoString)
    | RequestFailed(cause: GoString)
    | HttpStatus(code: nat)                  // "HTTP request error. Response code %d"
    | InvalidContentType(got: GoString)      // "Invalid Content-Type in response. ..."
    | MalformedBody(cause: GoString)
    | NotExactlyOneAsset(count: nat)         // "Failed to find exactly one asset (Got %d)"

  function JsonContentType(): GoString
  {
    Str("application/json")
  }

  /** The header sent with both requests: `Basic <token>`, and none at all for
      the empty token. */
  function AuthorizationHeader(token: GoString): (h: Option<GoString>)
    ensures h.None? <==> token == []
    ensures h.Some? ==> h.value == Str("Basic ") + token
  {
    if token == [] then None else Some(Str("Basic ") + token)
  }

  /** Everything of the search URL before the escaped name. */
  function SearchEndpoint(server: GoString): GoString
  {
    Str("https://") + server + Str("/service/rest/v1/search/assets?name=")
  }

  const AMPERSAND: byte := 38

  /** The last field of the search query: the repository, verbatim. */
  function RepositoryField(repository: GoString): GoString
  {
    Str("repository=") + repository
  }

  /** The search URL: the name query-escaped, the repository verbatim. */
  function SearchUrl(server: GoString, repository: GoString, name: GoString): GoString
  {
    SearchEndpoint(server) + QueryEscape.Escape(name) + [AMPERSAND] + RepositoryField(repository)
  }

  lemma FirstAmpersand(escaped: GoString, rest: GoString)
    requires forall i :: 0 <= i < |escaped| ==> QueryEscape.IsEscapedByte(escaped[i])
    ensures IndexOf(escaped + [AMPERSAND] + rest, [AMPERSAND]) == Some(|escaped|)
  {
    var q := escaped + [AMPERSAND] + rest;
    assert q[|escaped|..|escaped| + 1] == [AMPERSAND];
    assert OccursAt(q, [AMPERSAND], |escaped|);
    forall j: nat | j < |escaped| ensures !OccursAt(q, [AMPERSAND], j) {
      assert q[j..j + 1] == [escaped[j]];
    }
  }

  /** Whatever precedes the query and whatever follows the `&`: the text from
      the escaped name up to the first `&` unescapes to the name, and the rest
      is what followed. */
  lemma QueryFields(endpoint: GoString, name: GoString, rest: GoString)
    ensures var query := (endpoint + QueryEscape.Escape(name) + [AMPERSAND] + rest)[|endpoint|..];
      var e := |QueryEscape.Escape(name)|;
      && IndexOf(query, [AMPERSAND]) == Some(e)
      && QueryEscape.Unescape(query[..e]) == Some(name)
      && query[e + 1..] == rest
  {
    var escaped := QueryEscape.Escape(name);
    var query := (endpoint + escaped + [AMPERSAND] + rest)[|endpoint|..];
    assert query == escaped + [AMPERSAND] + rest;
    FirstAmpersand(escaped, rest);
    assert query[..|escaped|] == escaped;
    QueryEscape.UnescapeEscape(name);
    assert query[|escaped| + 1..] == rest;
  }

  /** The name field of the search query, read up to the first `&`, unescapes to
      the asset name, and what follows is the repository as given. */
  lemma SearchUrlFields(server: GoString, repository: GoString, name: GoString)
    ensures var query := SearchUrl(server, repository, name)[|SearchEndpoint(server)|..];
      var e := |QueryEscape.Escape(name)|;
      && IndexOf(query, [AMPERSAND]) == Some(e)
      && QueryEscape.Unescape(query[..e]) == Some(name)
      && query[e + 1..] == Str("repository=") + repository
  {
    QueryFields(SearchEndpoint(server), name, RepositoryField(repository));
  }

  /** The ordered checks applied to a search reply. */
  function AcceptReply(reply: Reply<SearchBody>): Result<Asset, SearchError>
  {
    match reply
    case Unreachable(cause) => Failure(RequestFailed(cause))
    case Response(status, contentType, body) =>
      if status != 200 then Failure(HttpStatus(status))
      else if contentType != JsonContentType() then Failure(InvalidContentType(contentType))
      else match body
        case Failure(cause) => Failure(MalformedBody(cause))
        case Success(response) =>
          if |response.items| != 1 then Failure(NotExactlyOneAsset(|response.items|))
          else Success(response.items[0])
  }

  /** A search result, together with the requests that were sent for it. */
  datatype SearchOutcome = SearchOutcome(result: Result<Asset, SearchError>, sent: seq<Request>)

  /** `searchRawRepo`. */
  function SearchRawRepo(server: GoString, repository: GoString, name: GoString, token: GoString,
                         newRequest: RequestBuilder, service: SearchService): (r: SearchOutcome)
    ensures r.sent == [] || r.sent == [Get(SearchUrl(server, repository, name), AuthorizationHeader(token))]
    ensures r.result.Success? ==> |r.sent| == 1
  {
    var url := SearchUrl(server, repository, name);
    match newRequest(url)
    case Some(cause) => SearchOutcome(Failure(RequestNotBuilt(cause)), [])
    case None =>
      var request := Get(url, AuthorizationHeader(token));
      SearchOutcome(AcceptReply(service(request)), [request])
  }

  /** A reply is accepted exactly when its status is 200, its content type is
      exactly `application/json`, its body decodes and it lists one asset; that
      asset is the result. */
  lemma AcceptedExactly(reply: Reply<SearchBody>)
    ensures AcceptReply(reply).Success? <==>
      && reply.Response? && reply.status == 200 && reply.contentType == JsonContentType()
      && reply.body.Success? && |reply.body.value.items| == 1
    ensures AcceptReply(reply).Success? ==> AcceptReply(reply).value == reply.body.value.items[0]
  {
  }

  /** The checks apply in order: a bad status wins over everything, then the
      content type, then the body, then the item count, which is reported. */
  lemma ChecksInOrder(reply: Reply<SearchBody>)
    requires reply.Response?
    ensures reply.status != 200 ==> AcceptReply(reply) == Failure(HttpStatus(reply.status))
    ensures reply.status == 200 && reply.contentType != JsonContentType() ==>
      AcceptReply(reply) == Failure(InvalidContentType(reply.contentType))
    ensures (reply.status == 200 && reply.contentType == JsonContentType() && reply.body.Success?
             && |reply.body.value.items| != 1) ==>
      AcceptReply(reply) == Failure(NotExactlyOneAsset(|reply.body.value.items|))
  {
  }

  /** A JSON content type with parameters is not the exact type. */
  lemma CharsetRefused(body: SearchBody)
    ensures AcceptReply(Response(200, Str("application/json; charset=utf-8"), body))
      == Failure(InvalidContentType(Str("application/json; charset=utf-8")))
  {
    assert |Str("application/json; charset=utf-8")| != |JsonContentType()|;
  }

  /** The search finds an asset exactly when the request can be built and its
      reply passes `AcceptReply`'s checks; the asset is the reply's only item,
      and every failure is either the request error or `AcceptReply`'s. */
  lemma SearchResult(server: GoString, repository: GoString, name: GoString, token: GoString,
                     newRequest: RequestBuilder, service: SearchService)
    ensures var url := SearchUrl(server, repository, name);
      var reply := service(Get(url, AuthorizationHeader(token)));
      var r := SearchRawRepo(server, repository, name, token, newRequest, service).result;
      && (r.Success? <==>
            && newRequest(url).None? && reply.Response? && reply.status == 200
            && reply.contentType == JsonContentType() && reply.body.Success? && |reply.body.value.items| == 1)
      && (r.Success? ==> r.value == reply.body.value.items[0])
      && (newRequest(url).Some? ==> r == Failure(RequestNotBuilt(newRequest(url).value)))
      && (newRequest(url).None? ==> r == AcceptReply(reply))
  {
    AcceptedExactly(service(Get(SearchUrl(server, repository, name), AuthorizationHeader(token))));
  }

  /** The search request carries the header exactly when the token is not empty. */
  lemma SearchHeader(server: GoString, repository: GoString, name: GoString, token: GoString,
                     newRequest: RequestBuilder, service: SearchService)
    ensures forall q :: q in SearchRawRepo(server, repository, name, token, newRequest, service).sent ==>
      (q.authorization.Some? <==> token != [])
  {
  }
}
