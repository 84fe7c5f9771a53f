/**
 * Lookup of one lyrics record by its remote id: the endpoint is built from the
 * instance base URL, the request goes through the retry layer, and the HTTP
 * status decides the result.
 */
module GetById {
  import opened Wrappers
  import opened Text
  import opened Lrclib

  /** The HTTP stack as an oracle: whether a URL parses, and what each attempt to send yields. */
  datatype Client = Client(urlParses: string -> bool, send: (string, nat) -> SendOutcome)

  /** A failed lookup: the URL did not parse, or the request failed. */
  datatype LookupError = InvalidUrl(url: string) | Failure(error: Error)

  const NotFoundError := ResponseError(Some(404), "NotFound", "There is no lyrics for this track")
  const UnknownError := ResponseError(Option.None, "UnknownError", "Unknown error happened")

  /** `trim_end_matches('/')`. */
  function TrimEndSlashes(s: string): (r: string)
    ensures r == [] || r[|r| - 1] != '/'
    ensures |r| <= |s| && s[..|r|] == r
    ensures forall i :: |r| <= i < |s| ==> s[i] == '/'
  {
    if s != [] && s[|s| - 1] == '/' then TrimEndSlashes(s[..|s| - 1]) else s
  }

  function DigitChar(d: nat): char
    requires d < 10
  {
    "0123456789"[d]
  }

  /** Decimal digits of a natural number, most significant first, without leading zeros. */
  function NatToDecimal(n: nat): (r: string)
    ensures |r| > 0
    ensures IsDigits(r)
    ensures |r| > 1 ==> r[0] != '0'
  {
    if n < 10 then [DigitChar(n)] else NatToDecimal(n / 10) + [DigitChar(n % 10)]
  }

  /** Rust's `Display` for `i64`. */
  function IntToDecimal(i: int): string {
    if i < 0 then "-" + NatToDecimal(-i) else NatToDecimal(i)
  }

  predicate IsDigits(s: string) {
    forall i :: 0 <= i < |s| ==> '0' <= s[i] <= '9'
  }

  function DecimalValue(s: string): nat
    requires IsDigits(s)
  {
    if s == [] then 0 else 10 * DecimalValue(s[..|s| - 1]) + (s[|s| - 1] as int - '0' as int)
  }

  function ParseInt(s: string): int
    requires if s != [] && s[0] == '-' then IsDigits(s[1..]) else IsDigits(s)
  {
    if s != [] && s[0] == '-' then -(DecimalValue(s[1..]) as int) else DecimalValue(s)
  }

  lemma {:induction false} DecimalRoundTrip(n: nat)
    ensures DecimalValue(NatToDecimal(n)) == n
  {
    if n >= 10 {
      DecimalRoundTrip(n / 10);
      var r := NatToDecimal(n);
      assert r[..|r| - 1] == NatToDecimal(n / 10);
    }
  }

  /** The get-by-id endpoint, `{instance without trailing slashes}/api/get/{id}`. */
  function Endpoint(instance: string, id: int): string {
    TrimEndSlashes(instance) + "/api/get/" + IntToDecimal(id)
  }

  /** Reading back the decimal form of an id gives the id. */
  lemma IntRoundTrip(id: int)
    ensures ParseInt(IntToDecimal(id)) == id
  {
    var n: nat := if id < 0 then -id else id;
    var digits := NatToDecimal(n);
    DecimalRoundTrip(n);
    if id < 0 {
      assert IntToDecimal(id) == "-" + digits;
      ParseNegative(digits);
    } else {
      assert IntToDecimal(id) == digits;
      ParseNonNegative(digits);
    }
  }

  lemma ParseNegative(digits: string)
    requires IsDigits(digits)
    ensures ParseInt("-" + digits) == -(DecimalValue(digits) as int)
  {
    var s := "-" + digits;
    assert s[1..] == digits;
  }

  lemma ParseNonNegative(digits: string)
    requires IsDigits(digits)
    ensures ParseInt(digits) == DecimalValue(digits)
  {
    if digits != [] {
      assert digits[0] != '-';
    }
  }

  /**
   * The endpoint keeps the instance up to its trailing slashes, adds exactly one
   * separator, and the id can be read back from its tail.
   */
  lemma EndpointShape(instance: string, id: int)
    ensures var base := TrimEndSlashes(instance);
            var e := Endpoint(instance, id);
            && StartsWith(e, base + "/api/get/")
            && StartsWith(instance, base)
            && (forall i :: |base| <= i < |instance| ==> instance[i] == '/')
            && (base == [] || base[|base| - 1] != '/')
            && ParseInt(e[|base| + 9..]) == id
  {
    var base := TrimEndSlashes(instance);
    var prefix := base + "/api/get/";
    var e := Endpoint(instance, id);
    assert |prefix| == |base| + 9;
    assert e == prefix + IntToDecimal(id);
    assert e[..|prefix|] == prefix;
    assert e[|prefix|..] == IntToDecimal(id);
    IntRoundTrip(id);
  }

  function HasLyrics(raw: RawResponse): bool {
    raw.syncedLyrics.Some? || raw.plainLyrics.Some? || raw.instrumental
  }

  /** The statuses whose body is read as a structured error. */
  predicate IsErrorStatus(status: nat) {
    status == 400 || status == 500 || status == 503
  }

  /** Any status other than 200, 404 and the structured-error ones. */
  predicate UnexpectedStatus(status: nat) {
    status != 200 && status != 404 && !IsErrorStatus(status)
  }

  /** request_raw's reading of a response. */
  function ClassifyRaw(res: HttpResponse): (r: Result<RawResponse, Error>)
    ensures r.Ok? <==> res.status == 200 && res.body.LyricsBody? && HasLyrics(res.body.raw)
    ensures r.Ok? ==> r.value == res.body.raw
    ensures r == Err(Remote(NotFoundError)) <==>
              res.status == 404 || (res.status == 200 && res.body.LyricsBody? && !HasLyrics(res.body.raw))
              || (IsErrorStatus(res.status) && res.body == ErrorBody(NotFoundError))
    ensures res.status == 200 && !res.body.LyricsBody? ==> r == Err(Decode)
    ensures IsErrorStatus(res.status) && res.body.ErrorBody? ==> r == Err(Remote(res.body.err))
    ensures IsErrorStatus(res.status) && !res.body.ErrorBody? ==> r == Err(Decode)
    ensures UnexpectedStatus(res.status) ==> r == Err(Remote(UnknownError)) && r.error.response.statusCode.None?
  {
    if res.status == 200 then
      match res.body
      case LyricsBody(raw) => if HasLyrics(raw) then Ok(raw) else Err(Remote(NotFoundError))
      case _ => Err(Decode)
    else if res.status == 404 then Err(Remote(NotFoundError))
    else if IsErrorStatus(res.status) then
      match res.body
      case ErrorBody(e) => Err(Remote(e))
      case _ => Err(Decode)
    else Err(Remote(UnknownError))
  }

  /** request's reading of a response; `fromRaw` is the shared raw-to-lyrics conversion. */
  function Classify(res: HttpResponse, fromRaw: RawResponse -> Response): (r: Result<Response, Error>)
    ensures res.status == 404 ==> r == Ok(Response.None)
    ensures r.Ok? ==> res.status == 200 || res.status == 404
    ensures res.status == 200 && res.body.LyricsBody? ==> r == Ok(fromRaw(res.body.raw))
    ensures res.status == 200 && !res.body.LyricsBody? ==> r == Err(Decode)
    ensures IsErrorStatus(res.status) && res.body.ErrorBody? ==> r == Err(Remote(res.body.err))
    ensures IsErrorStatus(res.status) && !res.body.ErrorBody? ==> r == Err(Decode)
    ensures UnexpectedStatus(res.status) ==> r == Err(Remote(UnknownError)) && r.error.response.statusCode.None?
  {
    if res.status == 200 then
      match res.body
      case LyricsBody(raw) => Ok(fromRaw(raw))
      case _ => Err(Decode)
    else if res.status == 404 then Ok(Response.None)
    else if IsErrorStatus(res.status) then
      match res.body
      case ErrorBody(e) => Err(Remote(e))
      case _ => Err(Decode)
    else Err(Remote(UnknownError))
  }

  /** make_request: parse the endpoint, then send it through the retry layer. */
  function MakeRequest(id: int, instance: string, client: Client): Result<HttpResponse, LookupError> {
    var url := Endpoint(instance, id);
    if !client.urlParses(url) then Err(InvalidUrl(url))
    else
      match Retry(url, client.send).result
      case Ok(res) => Ok(res)
      case Err(e) => Err(Failure(Network(e)))
  }

  function RequestRaw(id: int, instance: string, client: Client): Result<RawResponse, LookupError> {
    match MakeRequest(id, instance, client)
    case Err(e) => Err(e)
    case Ok(res) =>
      match ClassifyRaw(res)
      case Ok(raw) => Ok(raw)
      case Err(e) => Err(Failure(e))
  }

  function Request(id: int, instance: string, client: Client, fromRaw: RawResponse -> Response): Result<Response, LookupError> {
    match MakeRequest(id, instance, client)
    case Err(e) => Err(e)
    case Ok(res) =>
      match Classify(res, fromRaw)
      case Ok(resp) => Ok(resp)
      case Err(e) => Err(Failure(e))
  }

  /**
   * The two readings of one exchange agree except on "nothing found": a 404,
   * which request answers with Response.None and request_raw with the NotFound
   * error, and a 200 without any lyrics, which request converts and request_raw
   * refuses. Every other status yields the same error from both.
   */
  lemma RequestAgreesWithRequestRaw(id: int, instance: string, client: Client, fromRaw: RawResponse -> Response)
    ensures var raw := RequestRaw(id, instance, client);
            var full := Request(id, instance, client, fromRaw);
            var made := MakeRequest(id, instance, client);
            && (raw.Ok? ==> full == Ok(fromRaw(raw.value)))
            && (made.Err? ==> raw == Err(made.error) && full == Err(made.error))
            && (made.Ok? && made.value.status == 404 ==>
                  raw == Err(Failure(Remote(NotFoundError))) && full == Ok(Response.None))
            && (made.Ok? && made.value.status == 200 && made.value.body.LyricsBody? && !HasLyrics(made.value.body.raw) ==>
                  raw == Err(Failure(Remote(NotFoundError))) && full == Ok(fromRaw(made.value.body.raw)))
            && (made.Ok? && made.value.status != 200 && made.value.status != 404 ==>
                  raw.Err? && full.Err? && raw.error == full.error)
  {
  }
}
