/** lib/api.js: shaping a request to the hosting API and mapping the response
    status to an outcome. The HTTP exchange itself is foreign: the response
    (or the transport error) is a parameter. */
module Api {
  import opened Wrappers
  import opened JsText
  import Encoding

  /** The fields of `program` the request depends on. */
  datatype Program = Program(apiUrl: Option<string>, dev: Option<bool>,
                             userId: Option<string>, secretKey: Option<string>)

  /** A `json` option: `true`, or an object sent as the body. */
  datatype Payload = JsonTrue | JsonBody(fields: map<string, string>)

  type Headers = map<string, string>

  const ProductionHost: string := "https://aerobaticapp.com"
  const DevHost: string := "https://aerobaticapp.dev:7777"

  /** `program.apiUrl` is truthy. */
  predicate HasApiUrl(p: Program)
  {
    p.apiUrl.Some? && p.apiUrl.value != ""
  }

  /** The branch taken: an explicit API URL wins over `dev === true`. */
  predicate IsDevTarget(p: Program)
  {
    !HasApiUrl(p) && p.dev == Some(true)
  }

  /** The URL the request goes to. */
  function RequestUrl(p: Program, path: Option<string>): (url: string)
    ensures HasApiUrl(p) ==> url == p.apiUrl.value + Str(path)
    ensures IsDevTarget(p) ==> url == DevHost + Str(path)
    ensures !HasApiUrl(p) && p.dev != Some(true) ==> url == ProductionHost + Str(path)
  {
    if HasApiUrl(p) then p.apiUrl.value + Str(path)
    else if p.dev == Some(true) then DevHost + Str(path)
    else ProductionHost + Str(path)
  }

  /** `"Basic " + new Buffer(userId + ':' + secretKey).toString('base64')`. */
  function Authorization(p: Program): (h: string)
    ensures |h| >= 6 && h[..6] == "Basic "
    ensures Encoding.Decode(h[6..]) == Encoding.Utf8(Str(p.userId) + ":" + Str(p.secretKey))
  {
    var creds := Encoding.Utf8(Str(p.userId) + ":" + Str(p.secretKey));
    Encoding.DecodeEncode(creds);
    var h := "Basic " + Encoding.Encode(creds);
    assert h[6..] == Encoding.Encode(creds);
    h
  }

  /** The header is the Basic scheme of section 2 of RFC 7617: the scheme
      name, one space, and credentials that decode to the UTF-8 bytes of
      user id, colon, secret key. */
  lemma AuthorizationDecodes(p: Program)
    ensures var h := Authorization(p);
            |h| >= 6 && h[..6] == "Basic "
            && Encoding.Decode(h[6..]) == Encoding.Utf8(Str(p.userId))
                                          + Encoding.Utf8([':']) + Encoding.Utf8(Str(p.secretKey))
  {
    var creds := Str(p.userId) + ":" + Str(p.secretKey);
    Encoding.DecodeEncode(Encoding.Utf8(creds));
    Encoding.Utf8Append(Str(p.userId) + ":", Str(p.secretKey));
    Encoding.Utf8Append(Str(p.userId), ":");
    assert Authorization(p)[6..] == Encoding.Encode(Encoding.Utf8(creds));
  }

  /** For ASCII credentials, as the login validators accept, the decoded
      credentials are exactly the character codes of `userId:secretKey`. */
  lemma AuthorizationAscii(userId: string, secretKey: string)
    requires Encoding.IsAscii(userId) && Encoding.IsAscii(secretKey)
    ensures var h := Authorization(Program(None, None, Some(userId), Some(secretKey)));
            var d := Encoding.Decode(h[6..]);
            |d| == |userId| + 1 + |secretKey|
            && (forall i :: 0 <= i < |userId| ==> d[i] as int == userId[i] as int)
            && d[|userId|] as int == ':' as int
            && (forall i :: 0 <= i < |secretKey| ==> d[|userId| + 1 + i] as int == secretKey[i] as int)
  {
    var p := Program(None, None, Some(userId), Some(secretKey));
    var creds := userId + ":" + secretKey;
    assert Encoding.IsAscii(creds);
    Encoding.DecodeEncode(Encoding.Utf8(creds));
    Encoding.Utf8Ascii(creds);
    assert Authorization(p)[6..] == Encoding.Encode(Encoding.Utf8(creds));
  }

  /** The three headers every request carries. */
  function ApiHeaders(p: Program, version: string): (h: Headers)
    ensures h.Keys == {"User-Agent", "Authorization", "Accept"}
    ensures h["User-Agent"] == "yoke-cli@" + version
    ensures h["Accept"] == "application/json"
  {
    map["User-Agent" := "yoke-cli@" + version, "Authorization" := Authorization(p),
        "Accept" := "application/json"]
  }

  /** The options object of one request. `request` mutates it in place. */
  class RequestOptions {
    var httpMethod: Option<string>
    var headers: Option<Headers>
    var json: Option<Payload>
    var strictSSL: Option<bool>
    var path: Option<string>
    var url: Option<string>

    constructor (httpMethod: Option<string>, headers: Option<Headers>, json: Option<Payload>,
                 strictSSL: Option<bool>, path: Option<string>)
      ensures this.httpMethod == httpMethod && this.headers == headers && this.json == json
      ensures this.strictSSL == strictSSL && this.path == path && this.url == None
    {
      this.httpMethod := httpMethod;
      this.headers := headers;
      this.json := json;
      this.strictSSL := strictSSL;
      this.path := path;
      this.url := None;
    }

    /** The `method` option is `httpMethod` here. Lines 7-27: fill the defaults, choose the URL, and overwrite the
        three API headers. */
    method Prepare(p: Program, version: string)
      modifies this
      ensures httpMethod == Some(old(httpMethod).GetOr("post"))
      ensures json == Some(old(json).GetOr(JsonTrue))
      ensures url == Some(RequestUrl(p, old(path))) && path == old(path)
      ensures strictSSL == if IsDevTarget(p) then Some(false) else Some(old(strictSSL).GetOr(true))
      ensures headers == Some(old(headers).GetOr(map[]) + ApiHeaders(p, version))
    {
      httpMethod := Some(httpMethod.GetOr("post"));
      var callerHeaders := headers.GetOr(map[]);
      json := Some(json.GetOr(JsonTrue));
      strictSSL := Some(strictSSL.GetOr(true));

      if HasApiUrl(p) {
        url := Some(p.apiUrl.value + Str(path));
      } else if p.dev == Some(true) {
        url := Some(DevHost + Str(path));
        strictSSL := Some(false);
      } else {
        url := Some(ProductionHost + Str(path));
      }

      var apiHeaders := ApiHeaders(p, version);
      headers := Some(callerHeaders + apiHeaders);
    }
  }

  /** Caller headers other than the three API headers are kept; those three
      always take the API's values. */
  lemma HeadersOverwrite(caller: Headers, p: Program, version: string)
    ensures var h := caller + ApiHeaders(p, version);
            h.Keys == caller.Keys + {"User-Agent", "Authorization", "Accept"}
            && (forall k :: k in caller && k !in {"User-Agent", "Authorization", "Accept"} ==> h[k] == caller[k])
            && h["Authorization"] == Authorization(p)
            && h["User-Agent"] == "yoke-cli@" + version
  {
  }

  datatype Response<B> = Response(statusCode: int, body: B)

  datatype ApiError =
    | Transport(message: string)
    | Unauthorized
    | HttpFailure(statusCode: int)

  /** What the callback receives: an error, or a body (absent for 404) with
      the status code. */
  datatype Outcome<B> = Done(body: Option<B>, statusCode: int) | Failed(error: ApiError)

  const UnauthorizedMessage: string :=
    "Unauthorized. Your userId and secretKey do not allow you to perform the requested action."

  /** The response callback, lines 29-47. */
  function HandleResponse<B>(r: Result<Response<B>, string>): (o: Outcome<B>)
    ensures r.Err? ==> o == Failed(Transport(r.error))
    ensures r.Ok? && r.value.statusCode in {200, 201, 202} ==>
              o == Done(Some(r.value.body), r.value.statusCode)
    ensures r.Ok? && r.value.statusCode == 401 ==> o == Failed(Unauthorized)
    ensures r.Ok? && r.value.statusCode == 404 ==> o == Done(None, 404)
    ensures r.Ok? && r.value.statusCode !in {200, 201, 202, 401, 404} ==>
              o == Failed(HttpFailure(r.value.statusCode))
  {
    match r
    case Err(e) => Failed(Transport(e))
    case Ok(resp) =>
      var code := resp.statusCode;
      if code == 200 || code == 201 || code == 202 then Done(Some(resp.body), code)
      else if code == 401 then Failed(Unauthorized)
      else if code == 404 then Done(None, 404)
      else Failed(HttpFailure(code))
  }

  /** A body reaches the caller only on 200, 201 and 202; 404 is the one
      status that is neither a body nor an error. */
  lemma OutcomeClasses<B>(r: Result<Response<B>, string>)
    ensures var o := HandleResponse(r);
            (o.Done? && o.body.Some? <==> r.Ok? && r.value.statusCode in {200, 201, 202})
            && (o.Done? && o.body.None? <==> r.Ok? && r.value.statusCode == 404)
            && (o.Done? ==> o.statusCode == r.value.statusCode)
  {
  }
}
