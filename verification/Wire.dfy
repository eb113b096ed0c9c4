/** The ext_proc messages Envoy sends and the answers the processor emits. */
module Wire {
  import opened Common

  datatype HeaderValue = HeaderValue(key: string, raw: string)
  type HeaderMap = seq<HeaderValue>

  /** Which half of an exchange a message belongs to; it plays the part of the
      source's message factories. */
  datatype Direction = Request | Response

  /** The map iteration orders Go happens to use while one request is served:
      over the endpoint's parameters, and over the headers to forward. */
  datatype Walk = Walk(parameters: Order, extraHeaders: Order)

  /** A message received from Envoy. `walk` is not on the wire: it resolves the
      map iteration order of the cycle the message opens. `Unset` is a message
      whose oneof carries nothing. */
  datatype Inbound =
    | RequestHeaders(headers: HeaderMap, endOfStream: bool, walk: Walk)
    | ResponseHeaders(headers: HeaderMap, endOfStream: bool)
    | Body(direction: Direction, chunk: Bytes, endOfStream: bool)
    | Trailers(direction: Direction)
    | Unset

  datatype HeaderSet = HeaderSet(key: string, value: string)

  /** `replace` is CONTINUE_AND_REPLACE; `body` is set only then. */
  datatype CommonResponse = CommonResponse(
    replace: bool,
    setHeaders: seq<HeaderSet>,
    removeHeaders: seq<string>,
    body: Option<Bytes>)

  const NO_MUTATION := CommonResponse(false, [], [], None)

  datatype Immediate = Immediate(status: int, setHeaders: seq<HeaderSet>, body: Bytes)

  datatype Answer =
    | HeadersAnswer(direction: Direction, common: CommonResponse)
    | BodyAnswer(direction: Direction, chunk: Bytes, endOfStream: bool)
    | TrailersAnswer(direction: Direction)
    | ImmediateAnswer(immediate: Immediate)

  /** A header mutation and the body to stream after it. */
  datatype StreamedMutation = StreamedMutation(headers: Answer, body: Bytes)

  function FindHeader(headers: HeaderMap, key: string): Option<string> {
    if headers == [] then None
    else if headers[0].key == key then Some(headers[0].raw)
    else FindHeader(headers[1..], key)
  }

  /** The value found is that of the first header with this key. */
  lemma {:induction false} FindHeaderIsFirst(headers: HeaderMap, key: string, i: nat)
    requires i <= |headers|
    requires forall j :: 0 <= j < i ==> headers[j].key != key
    requires i < |headers| ==> headers[i].key == key
    ensures FindHeader(headers, key) == if i < |headers| then Some(headers[i].raw) else None
  {
    if i > 0 {
      FindHeaderIsFirst(headers[1..], key, i - 1);
    }
  }

  /** Where the first header with this key is; the number of headers if there is
      none. */
  function FirstIndex(headers: HeaderMap, key: string): (i: nat)
    ensures i <= |headers|
    ensures forall j :: 0 <= j < i ==> headers[j].key != key
    ensures i < |headers| ==> headers[i].key == key
  {
    if headers == [] || headers[0].key == key then 0 else 1 + FirstIndex(headers[1..], key)
  }

  function HeaderMutation(direction: Direction, setHeaders: seq<HeaderSet>, removeHeaders: seq<string>): Answer {
    HeadersAnswer(direction, CommonResponse(false, setHeaders, removeHeaders, None))
  }

  /** An immediate answer is preceded by the acknowledgement of the request
      headers, which is still owed at every call site. */
  function ImmediateResponse(immediate: Immediate): seq<Answer> {
    [HeadersAnswer(Request, NO_MUTATION), ImmediateAnswer(immediate)]
  }

  const CONTENT_HEADERS: seq<string> := ["content-length", "content-type"]

  function HttpStatusResponse(status: int): seq<Answer> {
    ImmediateResponse(Immediate(status, [], []))
  }

  function MethodNotAllowedResponse(): seq<Answer> {
    ImmediateResponse(Immediate(405, [HeaderSet("allow", "POST")], []))
  }

  function ForbiddenResponse(): seq<Answer> {
    HttpStatusResponse(403)
  }

  function ImmediateBodyResponse(body: Bytes, status: int): seq<Answer> {
    ImmediateResponse(Immediate(status, [HeaderSet("content-type", "application/json")], body))
  }

  function ReplacedResponse(headers: seq<HeaderSet>, body: Bytes): seq<Answer> {
    [HeadersAnswer(Response,
       CommonResponse(true, headers + [HeaderSet(":status", "200")], CONTENT_HEADERS, Some(body)))]
  }
}
