/** The parts of the HTTP library the core relies on: status classes, header values, URLs and requests. */
module Http {
  import opened Wrappers

  newtype byte = x: int | 0 <= x < 256

  /** An HTTP status code; the HTTP library only admits three-digit codes. */
  type StatusCode = x: int | 100 <= x <= 999 witness 200

  /** `StatusCode::is_client_error`: 400 to 499. */
  predicate IsClientError(s: StatusCode) { 400 <= s < 500 }

  /** `StatusCode::is_server_error`: 500 to 599. */
  predicate IsServerError(s: StatusCode) { 500 <= s < 600 }

  /** A byte that `HeaderValue::to_str` accepts: visible ASCII or a horizontal tab. */
  predicate VisibleAscii(b: byte) { (32 <= b < 127) || b == 9 }

  /** `HeaderValue::to_str`: the header as text, or None when a byte is not visible ASCII. */
  function HeaderToStr(bytes: seq<byte>): (r: Option<string>)
    ensures r.Some? <==> forall i :: 0 <= i < |bytes| ==> VisibleAscii(bytes[i])
    ensures r.Some? ==> |r.value| == |bytes| && forall i :: 0 <= i < |bytes| ==> r.value[i] as int == bytes[i] as int
  {
    if bytes == [] then Some("")
    else if !VisibleAscii(bytes[0]) then None
    else match HeaderToStr(bytes[1..])
      case None => None
      case Some(rest) => Some([bytes[0] as int as char] + rest)
  }

  /** A parsed URL: its serialization (what `format!("{}", url)` prints) and its path component. */
  datatype Url = Url(serialized: string, path: string)

  datatype Method = Get | Head | Post | Put | Patch | Delete | Options

  /** A request body: bytes in memory, or a one-shot stream that cannot be cloned. */
  datatype Body = Bytes(data: seq<byte>) | Stream(id: nat)

  /** The configuration a request builder accumulates. */
  datatype HttpRequest = HttpRequest(
    verb: Method,
    url: Url,
    headers: seq<(string, string)>,
    query: seq<(string, string)>,
    body: Option<Body>,
    timeout: Option<nat>)

  /** `Client::request(method, url)`: a request with nothing else configured. */
  function NewRequest(verb: Method, url: Url): HttpRequest {
    HttpRequest(verb, url, [], [], None, None)
  }

  predicate EndsWith(s: string, suffix: string) {
    |suffix| <= |s| && s[|s| - |suffix|..] == suffix
  }
}
