# ModernSwiftNetworking request pipeline in Dafny

This project models the request pipeline of `NetworkService`, a small Swift
HTTP layer, and proves properties of the model. An endpoint (`TargetType`)
describes a base URL, a path, an HTTP method, optional headers and a task. The
task is either no parameters, or parameters with `.url` or `.json` encoding.
The pipeline turns the endpoint into a `URLRequest` and hands it to the
transport. It then classifies what comes back into a value of the requested
type or into one of three errors: `invalidResponse`, `emptyData` and
`decodingError`.

Modules:

- `Wrappers` (wrappers.dfy): `Option` and `Result`.
- `Target` (target.dfy): the endpoint datatypes of `TargetType.swift`. Parameters are an ordered
  list of string pairs.
- `Strings` (strings.dfy): `uppercased()` (ASCII letters), `joined(separator:)`,
  `URL.appendingPathComponent`, and the splitting functions used as their inverses.
- `NetworkService` (network_service.dfy):
  - the error taxonomy and the request record;
  - `BuildRequest`, a method that updates a request record field by field, as the Swift code
    updates its `URLRequest` struct;
  - the response classification as pure functions: `Validate`, `HandleBody` and
    `HandleResponse`;
  - the method `Request`, which composes building, the transport and classification.
- `RequestProperties` (request_properties.dfy) and `ResponseProperties` (response_properties.dfy): the lemmas.

Parameters of the model that stand for code outside the core:

- `transport: URLRequest -> Outcome` stands for `URLSession`. `Outcome` is a transport error, a
  non-HTTP response, or an HTTP status with body bytes.
- `serialize: Parameters -> Option<seq<byte>>` stands for `try? JSONSerialization.data(...)`.
- `isValidURL: string -> bool` stands for `URL(string:)`. The helper `URLFromString` applies it:
  when it accepts a string, the URL is that string, otherwise the URL is absent.
- The caller's decoding type is `DecodingType`: either `AsData`, for `decodingType == Data.self`,
  or `AsModel`, for a model type. Each form carries its JSON decoder as a function returning a
  `Result`. The `Data` decoder is used only for the empty-body fallback, because the source
  decodes `{}` into `T` before it checks for `Data`.
- The result is a `Payload`: `Data(bytes)` or `Model(value)`.

The model follows the code as written:

- With `.json` encoding the header fields are copied exactly and no `Content-Type` is added
  (NetworkService.swift line 75 and lines 85-86).
- With `.url` encoding the URL is rebuilt from the base URL and the path, followed by `?` and
  the query string. It is `nil` when the string does not parse (line 84).
- With `.url` encoding and no parameters the URL still ends in `?`.

## Model

| member | source | states |
|---|---|---|
| NetworkService.BuildRequest | Sources/ModernSwiftNetworking/NetworkService.swift:72-91 | The built request has the upper-cased method and exactly the endpoint's headers. Plain task: URL is base/path, no body. `.url`: URL is the parse of base/path + `?` + query string, no body. `.json`: URL is base/path, body is the serializer's output or absent if it fails. |
| NetworkService.Request | Sources/ModernSwiftNetworking/NetworkService.swift:20-70 | The sent request is built from the endpoint, and the result is the classification of what the transport returns for that request. |
| NetworkService.QueryString | Sources/ModernSwiftNetworking/NetworkService.swift:83 | The whole `queryParams` expression. It is empty exactly when there are no parameters; ParseQueryString reads it back. |
| Strings.Join | Sources/ModernSwiftNetworking/NetworkService.swift:83 | The `joined(separator: "&")` step. Its length is the parts' total length plus one separator between each pair of neighbours; JoinSplit and SplitJoin relate it to Split. |
| NetworkService.KeyValuePairs | Sources/ModernSwiftNetworking/NetworkService.swift:83 | The `map` step: one `key=value` string per parameter, in parameter order. |
| NetworkService.Validate | Sources/ModernSwiftNetworking/NetworkService.swift:24-38 | Passes exactly an HTTP response with a 2xx status, with its body and status. Any other outcome fails with `invalidResponse` carrying the response's status, or -1 when there is no HTTP response. |
| NetworkService.HandleBody | Sources/ModernSwiftNetworking/NetworkService.swift:39-67 | Every error carries the response's status and is never `invalidResponse`. `emptyData` occurs exactly for an empty body. A success is raw bytes exactly when raw bytes were requested. |
| NetworkService.HandleResponse | Sources/ModernSwiftNetworking/NetworkService.swift:24-67 | Every error carries the response's own status, or -1. The error is `invalidResponse` exactly when the outcome is not an HTTP response with a 2xx status. A 2xx response is classified by its body. |
| Strings.Upper | Sources/ModernSwiftNetworking/NetworkService.swift:74 | The ASCII model of `uppercased()` keeps the length (Swift's full Unicode mapping need not). |
| Strings.UpperAt | Sources/ModernSwiftNetworking/NetworkService.swift:74 | Each character of the upper-cased string is the upper-case form of the character at the same position. |
| Strings.UpperHasNoLower | Sources/ModernSwiftNetworking/NetworkService.swift:74 | The upper-cased method holds no lower-case letter. |
| Strings.UpperIdempotent | Sources/ModernSwiftNetworking/NetworkService.swift:74 | Upper-casing an already upper-cased method changes nothing. |
| Strings.UpperEqualIff | Sources/ModernSwiftNetworking/NetworkService.swift:74 | Two methods upper-case to the same string exactly when they are equal up to letter case (both directions). |
| Strings.Split | Sources/ModernSwiftNetworking/NetworkService.swift:83 | Not modelled code: the inverse of line 83's join, used by JoinSplit, SplitJoin and ParseQueryString. It always gives at least one piece. |
| Strings.JoinSplit | Sources/ModernSwiftNetworking/NetworkService.swift:83 | Joining the pieces of any split gives back the original string. |
| Strings.SplitJoin | Sources/ModernSwiftNetworking/NetworkService.swift:83 | Splitting a join gives back the parts, when no part holds the separator. |
| Strings.SplitOnce | Sources/ModernSwiftNetworking/NetworkService.swift:83-84 | Not modelled code: the inverse of the `?` and `=` concatenations of lines 83-84, used by ParseQueryString and BuiltUrlQuery. It cuts at the first occurrence of the character: the prefix is free of it, and the pieces rejoin to the string. |
| Strings.SplitOnceAppend | Sources/ModernSwiftNetworking/NetworkService.swift:83-84 | A cut at a character preceded by a prefix free of it is found again. |
| Strings.AppendingPathComponent | Sources/ModernSwiftNetworking/NetworkService.swift:73 | Apart from '/', the joined address holds only characters of the base URL or of the path. |
| Strings.AppendingPathComponentShape | Sources/ModernSwiftNetworking/NetworkService.swift:73 | For a base not ending in '/' and a path not starting with '/', the address is the base, one '/', then the path. The same address results when the base ends in '/' or the path starts with '/'. |
| RequestProperties.ParseQueryString | Sources/ModernSwiftNetworking/NetworkService.swift:83 | Reading the query string back (split on '&', cut at the first '=') gives the parameters in order, when no key holds '&' or '=' and no value holds '&'. |
| RequestProperties.QueryStringAmbiguous | Sources/ModernSwiftNetworking/NetworkService.swift:83 | Without percent-encoding, `[("a","b&c=d")]` and `[("a","b"),("c","d")]` give the same query string. |
| RequestProperties.BuiltMethodIgnoresCase | Sources/ModernSwiftNetworking/NetworkService.swift:74 | Two built requests have the same method exactly when the endpoints' methods are equal up to case. The method holds no lower-case letter. |
| RequestProperties.BuiltUrlQuery | Sources/ModernSwiftNetworking/NetworkService.swift:82-84 | With `.url` encoding there is no body. The URL cut at its first '?' is base/path and the query string. The query reads back as the parameters when they are unambiguous. |
| RequestProperties.BuiltUrlNoParameters | Sources/ModernSwiftNetworking/NetworkService.swift:83-84 | With `.url` encoding and no parameters, the URL is base/path followed by a bare `?`. |
| RequestProperties.SearchEndpoint | Sources/ModernSwiftNetworking/NetworkService.swift:72-91 | The endpoint `https://api.test` + `/search` with `get` and `q=swift` builds `GET https://api.test/search?q=swift`, with no body and no headers. |
| ResponseProperties.UnsuccessfulStatusRejected | Sources/ModernSwiftNetworking/NetworkService.swift:31-33 | A status outside 2xx gives `invalidResponse(status)`, the same whatever the body and the requested type. |
| ResponseProperties.SuccessfulStatusPasses | Sources/ModernSwiftNetworking/NetworkService.swift:31-34 | A 2xx status is never reported as `invalidResponse`, and any error carries that status. |
| ResponseProperties.NoHttpResponse | Sources/ModernSwiftNetworking/NetworkService.swift:24-29 | A transport error or a non-HTTP response gives `invalidResponse(-1)`. |
| ResponseProperties.EmptyBodyFallback | Sources/ModernSwiftNetworking/NetworkService.swift:41-50 | An empty 2xx body gives the value decoded from `{}` when decoding succeeds, otherwise `emptyData(status)`. |
| ResponseProperties.EmptyBodyBeforeRawBytes | Sources/ModernSwiftNetworking/NetworkService.swift:41-58 | For raw bytes, an empty body is handled by the `{}` fallback, not by the raw-bytes shortcut. |
| ResponseProperties.RawBytesVerbatim | Sources/ModernSwiftNetworking/NetworkService.swift:54-58 | A non-empty 2xx body requested as raw bytes is returned exactly, whatever the decoder. |
| ResponseProperties.DecodeResult | Sources/ModernSwiftNetworking/NetworkService.swift:61-66 | A non-empty 2xx body for a model type gives the decoded value. On failure it gives `decodingError` with the decoder's own error and the status. |
| ResponseProperties.UserDecoded | Sources/ModernSwiftNetworking/NetworkService.swift:61-66 | A 200 response whose body decodes to `User(1, "a")` gives that user. |
| ResponseProperties.NotFoundRejected | Sources/ModernSwiftNetworking/NetworkService.swift:31-33 | A 404 response gives `invalidResponse(404)` whatever its body. |

## Left out

- Network I/O (`URLSession.shared.dataTaskPublisher`) and the Combine plumbing (`Just`, `Fail`,
  `flatMap`, `eraseToAnyPublisher`) are left out. So is delivery on the main queue
  (`receive(on:)`). The transport is the function parameter `transport`, and a synchronous
  `Result` stands for the publisher's single value or failure.
- `JSONDecoder` and `JSONSerialization` are function parameters, so nothing is claimed about JSON
  itself. Two consequences:
  - The round trip "serialize the parameters, decode them back" is not stated.
  - The body of the `{"id":1,"name":"a"}` example is any non-empty body that the decoder maps to
    the user.
- Strings.AppendingPathComponent: Foundation's rules for joining a path to a URL and for
  percent-encoding path characters are not visible. The model drops one trailing '/' from the
  base and one leading '/' from the path, then joins them with '/'.
- `URL(string:)` is the parameter `isValidURL`. The model assumes that a URL it accepts is the
  string itself, with no normalisation.
- A URL is represented by its string, including the base URL of an endpoint.
- Strings.Upper: only the ASCII letters a-z are upper-cased. Swift's `uppercased()` also maps
  other Unicode letters and can change the length (`"ß"` becomes `"SS"`). So UpperEqualIff and
  BuiltMethodIgnoresCase describe Swift's behaviour only for ASCII methods.
- Parameter values are taken to be strings already. `String(describing:)` of `Any` values is
  not modelled, and neither is dictionary iteration order: the parameters are an ordered list.
  The list can hold more than a dictionary can (a key twice). The lemmas hold for every list,
  so they cover every dictionary's iteration order too.
- The `cast data as? T` check is part of `AsData`, since it always succeeds when the requested
  type is `Data`.
- The `shared` singleton and the unused `parameters` property of `TargetType` have no behaviour
  and are left out.
