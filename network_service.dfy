/** The request pipeline of Sources/ModernSwiftNetworking/NetworkService.swift:
    building a request from an endpoint, and classifying what the transport
    returns into a value or one of three error kinds. The transport, the JSON
    engine and URL parsing are parameters. */
module NetworkService {
  import opened Wrappers
  import opened Strings
  import opened Target

  newtype byte = x: int | 0 <= x < 256

  /** The closed error taxonomy; `underlying` is the decoder's own error. */
  datatype ErrorResponse<E> =
    | InvalidResponse(statusCode: int)
    | EmptyData(statusCode: int)
    | DecodingError(underlying: E, statusCode: int)

  /** The status used when there is no HTTP status to report. */
  const NO_STATUS: int := -1

  // ---------------------------------------------------------------------------
  // Request building
  // ---------------------------------------------------------------------------

  /** The fields of a `URLRequest` that the builder sets. A URL is represented
      by its string; `url` is absent when a URL string fails to parse. */
  datatype URLRequest = URLRequest(
    url: Option<string>,
    httpMethod: string,
    allHTTPHeaderFields: Option<map<string, string>>,
    httpBody: Option<seq<byte>>)

  /** The method a fresh `URLRequest` carries. */
  const DEFAULT_METHOD: string := "GET"

  /** `URL(string:)`: the parser (a parameter) either accepts the string, which
      then is the URL, or rejects it. */
  function URLFromString(s: string, isValidURL: string -> bool): (u: Option<string>)
    ensures u.Some? <==> isValidURL(s)
    ensures u.Some? ==> u.value == s
  {
    if isValidURL(s) then Some(s) else None
  }

  /** The base address joined with the path. */
  function Address(target: TargetType): string
  {
    AppendingPathComponent(target.baseURL, target.path)
  }

  /** One `key=value` pair of a query string. */
  function KeyValue(p: (string, string)): string
  {
    p.0 + "=" + p.1
  }

  /** The query string: the `key=value` pairs, in parameter order, joined by '&'.
      Nothing is percent-encoded. */
  function QueryString(parameters: Parameters): (r: string)
    ensures r == [] <==> parameters == []
  {
    Join(KeyValuePairs(parameters), '&')
  }

  /** Each parameter written as `key=value`, in order. */
  function KeyValuePairs(parameters: Parameters): (pairs: seq<string>)
    ensures |pairs| == |parameters|
    ensures forall i :: 0 <= i < |parameters| ==> pairs[i] == KeyValue(parameters[i])
  {
    if parameters == [] then [] else [KeyValue(parameters[0])] + KeyValuePairs(parameters[1..])
  }

  /** What a request built from `target` is: the verb upper-cased, the header
      fields copied, and the URL and body chosen by the task. */
  predicate IsBuiltFrom(
    r: URLRequest, target: TargetType,
    serialize: Parameters -> Option<seq<byte>>, isValidURL: string -> bool)
  {
    && r.httpMethod == Upper(target.httpMethod)
    && r.allHTTPHeaderFields == target.headers
    && match target.task
       case RequestPlain =>
         r.url == Some(Address(target)) && r.httpBody == None
       case RequestParameters(parameters, Url) =>
         && r.url == URLFromString(Address(target) + "?" + QueryString(parameters), isValidURL)
         && r.httpBody == None
       case RequestParameters(parameters, Json) =>
         r.url == Some(Address(target)) && r.httpBody == serialize(parameters)
  }

  /** `buildRequest(from:)`: starts from a request for the joined address and
      sets its fields one after the other. `serialize` stands for
      `JSONSerialization.data(withJSONObject:)` under `try?`. */
  method BuildRequest(
    target: TargetType,
    serialize: Parameters -> Option<seq<byte>>, isValidURL: string -> bool)
    returns (urlRequest: URLRequest)
    ensures IsBuiltFrom(urlRequest, target, serialize, isValidURL)
  {
    var address := AppendingPathComponent(target.baseURL, target.path);
    urlRequest := URLRequest(Some(address), DEFAULT_METHOD, None, None);
    urlRequest := urlRequest.(httpMethod := Upper(target.httpMethod));
    urlRequest := urlRequest.(allHTTPHeaderFields := target.headers);
    match target.task {
      case RequestPlain =>
      case RequestParameters(parameters, encoding) =>
        match encoding {
          case Url =>
            var queryParams := QueryString(parameters);
            urlRequest := urlRequest.(url := URLFromString(address + "?" + queryParams, isValidURL));
          case Json =>
            urlRequest := urlRequest.(httpBody := serialize(parameters));
        }
    }
  }

  // ---------------------------------------------------------------------------
  // Response classification
  // ---------------------------------------------------------------------------

  /** What the transport delivers: a failure, a response that is not an HTTP
      response, or an HTTP status with the body bytes. */
  datatype Outcome =
    | TransportError
    | NonHttpResponse
    | HttpResponse(statusCode: int, data: seq<byte>)

  /** The type the caller asks for: raw bytes (`Data`), or a model type. Each
      carries its JSON decoder; the one for raw bytes is consulted only for
      the empty-body fallback. */
  datatype DecodingType<T, E> =
    | AsData(dataDecoder: seq<byte> -> Result<seq<byte>, E>)
    | AsModel(decoder: seq<byte> -> Result<T, E>)

  /** A value of the requested type. */
  datatype Payload<T> = Data(bytes: seq<byte>) | Model(value: T)

  /** `"{}"` in UTF-8. */
  const EMPTY_JSON_OBJECT: seq<byte> := [0x7B, 0x7D]

  /** The 2xx class of status codes. */
  predicate IsSuccessful(statusCode: int)
  {
    200 <= statusCode < 300
  }

  /** The status an error reports for an outcome: its own, or -1 without one. */
  function StatusOf(outcome: Outcome): int
  {
    if outcome.HttpResponse? then outcome.statusCode else NO_STATUS
  }

  /** `JSONDecoder().decode(T.self, from:)`, with the decoder of the requested type. */
  function JsonDecode<T, E>(decodingType: DecodingType<T, E>, bytes: seq<byte>): Result<Payload<T>, E>
  {
    match decodingType
    case AsData(d) => (match d(bytes) case Success(b) => Success(Data(b)) case Failure(e) => Failure(e))
    case AsModel(d) => (match d(bytes) case Success(v) => Success(Model(v)) case Failure(e) => Failure(e))
  }

  /** The transport failure mapping and the `tryMap` step: only an HTTP response
      with a 2xx status goes on, carrying its body and status. The second error
      mapping's fallback to -1 never applies, since `tryMap` throws only
      `ErrorResponse` values. */
  function Validate<E>(outcome: Outcome): (r: Result<(seq<byte>, int), ErrorResponse<E>>)
    ensures r.Success? <==> outcome.HttpResponse? && IsSuccessful(outcome.statusCode)
    ensures r.Success? ==> r.value == (outcome.data, outcome.statusCode)
    ensures r.Failure? ==> r.error == InvalidResponse(StatusOf(outcome))
  {
    match outcome
    case TransportError => Failure(InvalidResponse(NO_STATUS))
    case NonHttpResponse => Failure(InvalidResponse(NO_STATUS))
    case HttpResponse(status, data) =>
      if !IsSuccessful(status) then Failure(InvalidResponse(status))
      else Success((data, status))
  }

  /** The `flatMap` step on a validated response: the empty body first, then
      the raw-bytes shortcut, then the normal decode. */
  function HandleBody<T, E>(data: seq<byte>, statusCode: int, decodingType: DecodingType<T, E>)
    : (r: Result<Payload<T>, ErrorResponse<E>>)
    ensures r.Failure? ==> r.error.statusCode == statusCode && !r.error.InvalidResponse?
    ensures r.Failure? ==> (r.error.EmptyData? <==> |data| == 0)
    ensures r.Success? ==> (r.value.Data? <==> decodingType.AsData?)
  {
    if |data| == 0 then
      match JsonDecode(decodingType, EMPTY_JSON_OBJECT)
      case Success(emptyInstance) => Success(emptyInstance)
      case Failure(_) => Failure(EmptyData(statusCode))
    else if decodingType.AsData? then
      Success(Data(data))
    else
      match JsonDecode(decodingType, data)
      case Success(v) => Success(v)
      case Failure(e) => Failure(DecodingError(e, statusCode))
  }

  /** The whole classification of one transport outcome. */
  function HandleResponse<T, E>(outcome: Outcome, decodingType: DecodingType<T, E>)
    : (r: Result<Payload<T>, ErrorResponse<E>>)
    ensures r.Failure? ==> r.error.statusCode == StatusOf(outcome)
    ensures r.Failure? && r.error.InvalidResponse? <==>
      !(outcome.HttpResponse? && IsSuccessful(outcome.statusCode))
    ensures outcome.HttpResponse? && IsSuccessful(outcome.statusCode) ==>
      r == HandleBody(outcome.data, outcome.statusCode, decodingType)
  {
    match Validate(outcome)
    case Failure(e) => Failure(e)
    case Success(validated) => HandleBody(validated.0, validated.1, decodingType)
  }

  /** `request(_:decodingType:)`: build the request, hand it to the transport
      (a parameter), classify the outcome. Also returns the request it sent. */
  method Request<T, E>(
    target: TargetType, decodingType: DecodingType<T, E>,
    transport: URLRequest -> Outcome,
    serialize: Parameters -> Option<seq<byte>>, isValidURL: string -> bool)
    returns (sent: URLRequest, result: Result<Payload<T>, ErrorResponse<E>>)
    ensures IsBuiltFrom(sent, target, serialize, isValidURL)
    ensures result == HandleResponse(transport(sent), decodingType)
  {
    sent := BuildRequest(target, serialize, isValidURL);
    result := HandleResponse(transport(sent), decodingType);
  }
}
