/** The declarative endpoint description of Sources/ModernSwiftNetworking/TargetType.swift.
    It is pure data: an endpoint never changes after it is built. */
module Target {
  import opened Wrappers

  /** Where the parameters of a request go: the query string or a JSON body. */
  datatype ParameterEncoding = Url | Json

  /** The parameters travel as an ordered list of name/value pairs; the values are
      already the strings that string interpolation would produce. */
  type Parameters = seq<(string, string)>

  /** The request task: no parameters, or parameters with an encoding. */
  datatype Task =
    | RequestPlain
    | RequestParameters(parameters: Parameters, encoding: ParameterEncoding)

  /** One endpoint: base address, relative path, HTTP method (`method`) as written by the
      caller (any case), optional header fields and the task. */
  datatype TargetType = TargetType(
    baseURL: string,
    path: string,
    httpMethod: string,
    headers: Option<map<string, string>>,
    task: Task)
}
