/** Properties of response classification: the order of the checks, what each
    exit yields, and what each exit does not depend on. */
module ResponseProperties {
  import opened Wrappers
  import opened NetworkService

  /** A status outside 2xx is rejected with that status whatever the body and
      whatever the requested type: the body is never looked at. */
  lemma UnsuccessfulStatusRejected<T, E>(
    status: int, data1: seq<byte>, data2: seq<byte>,
    type1: DecodingType<T, E>, type2: DecodingType<T, E>)
    requires !IsSuccessful(status)
    ensures HandleResponse(HttpResponse(status, data1), type1) == Failure(InvalidResponse(status))
    ensures HandleResponse(HttpResponse(status, data1), type1)
         == HandleResponse(HttpResponse(status, data2), type2)
  {
  }

  /** A 2xx status is never reported as an invalid response. */
  lemma SuccessfulStatusPasses<T, E>(status: int, data: seq<byte>, decodingType: DecodingType<T, E>)
    requires IsSuccessful(status)
    ensures var r := HandleResponse(HttpResponse(status, data), decodingType);
      r.Failure? ==> !r.error.InvalidResponse? && r.error.statusCode == status
  {
  }

  /** Without an HTTP response there is no status: the error reports -1. */
  lemma NoHttpResponse<T, E>(outcome: Outcome, decodingType: DecodingType<T, E>)
    requires !outcome.HttpResponse?
    ensures HandleResponse(outcome, decodingType) == Failure(InvalidResponse(NO_STATUS))
  {
  }

  /** An empty 2xx body falls back to decoding `{}`: its value if that
      succeeds, otherwise `emptyData` with the response's status. This holds
      for the raw-bytes type too, so the raw-bytes shortcut never sees an
      empty body. */
  lemma EmptyBodyFallback<T, E>(status: int, decodingType: DecodingType<T, E>)
    requires IsSuccessful(status)
    ensures var r := HandleResponse(HttpResponse(status, []), decodingType);
      match JsonDecode(decodingType, EMPTY_JSON_OBJECT)
      case Success(v) => r == Success(v)
      case Failure(_) => r == Failure(EmptyData(status))
  {
  }

  /** For the raw-bytes type an empty body yields empty bytes only if the
      decoder of `Data` turns `{}` into empty bytes. */
  lemma EmptyBodyBeforeRawBytes<T, E>(
    status: int, dataDecoder: seq<byte> -> Result<seq<byte>, E>)
    requires IsSuccessful(status)
    ensures var r := HandleResponse(HttpResponse(status, []), DecodingType<T, E>.AsData(dataDecoder));
      r == Success(Data([])) <==> dataDecoder(EMPTY_JSON_OBJECT) == Success([])
    ensures var r := HandleResponse(HttpResponse(status, []), DecodingType<T, E>.AsData(dataDecoder));
      dataDecoder(EMPTY_JSON_OBJECT).Failure? ==> r == Failure(EmptyData(status))
  {
  }

  /** A non-empty 2xx body requested as raw bytes is returned exactly,
      whichever decoder the type has: nothing is decoded. */
  lemma RawBytesVerbatim<T, E>(
    status: int, data: seq<byte>, dataDecoder: seq<byte> -> Result<seq<byte>, E>)
    requires IsSuccessful(status) && |data| > 0
    ensures HandleResponse(HttpResponse(status, data), DecodingType<T, E>.AsData(dataDecoder)) == Success(Data(data))
  {
  }

  /** A non-empty 2xx body for a model type is decoded: the value on success,
      otherwise `decodingError` with the decoder's error and the status. */
  lemma DecodeResult<T, E>(status: int, data: seq<byte>, decoder: seq<byte> -> Result<T, E>)
    requires IsSuccessful(status) && |data| > 0
    ensures var r := HandleResponse(HttpResponse(status, data), AsModel(decoder));
      match decoder(data)
      case Success(v) => r == Success(Model(v))
      case Failure(e) => r == Failure(DecodingError(e, status))
  {
  }

  /** The record of the user endpoint. */
  datatype User = User(id: int, name: string)

  /** A 200 response whose body decodes to a user yields that user. */
  lemma UserDecoded<E>(body: seq<byte>, decoder: seq<byte> -> Result<User, E>)
    requires |body| > 0 && decoder(body) == Success(User(1, "a"))
    ensures HandleResponse(HttpResponse(200, body), AsModel(decoder)) == Success(Model(User(1, "a")))
  {
  }

  /** A 404 response yields `invalidResponse(404)` whatever its body. */
  lemma NotFoundRejected<E>(body: seq<byte>, decoder: seq<byte> -> Result<User, E>)
    ensures HandleResponse(HttpResponse(404, body), AsModel(decoder)) == Failure(InvalidResponse(404))
  {
  }
}
