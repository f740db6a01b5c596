/** Properties of request building: the upper-cased verb, the query string and
    its inverse, and a concrete endpoint. */
module RequestProperties {
  import opened Wrappers
  import opened Strings
  import opened Target
  import opened NetworkService

  /** One `key=value` segment read back: cut at the first '='. */
  function ParsePair(segment: string): (string, string)
  {
    match SplitOnce(segment, '=')
    case Some(kv) => kv
    case None => (segment, "")
  }

  /** Reference inverse of the query string: split on '&', then cut each pair. */
  function ParseQuery(query: string): Parameters
  {
    if query == [] then []
    else
      var segments := Split(query, '&');
      seq(|segments|, i requires 0 <= i < |segments| => ParsePair(segments[i]))
  }

  /** Parameters the unescaped query string can carry without ambiguity:
      no '&' anywhere and no '=' in a key. */
  predicate UnambiguousParameters(parameters: Parameters)
  {
    forall i :: 0 <= i < |parameters| ==>
      '&' !in parameters[i].0 && '=' !in parameters[i].0 && '&' !in parameters[i].1
  }

  lemma KeyValueParses(p: (string, string))
    requires '=' !in p.0
    ensures ParsePair(KeyValue(p)) == p
  {
    SplitOnceAppend(p.0, p.1, '=');
  }

  /** Reading the query string back gives the parameters, in order. */
  lemma ParseQueryString(parameters: Parameters)
    requires UnambiguousParameters(parameters)
    ensures ParseQuery(QueryString(parameters)) == parameters
  {
    var pairs := KeyValuePairs(parameters);
    if |parameters| > 0 {
      forall i | 0 <= i < |pairs| ensures '&' !in pairs[i] {
        assert pairs[i] == parameters[i].0 + "=" + parameters[i].1;
      }
      SplitJoin(pairs, '&');
      assert Join(pairs, '&') != [] by {
        if |pairs| == 1 {
          assert Join(pairs, '&') == pairs[0];
        }
        assert |pairs[0]| > 0;
      }
      forall i | 0 <= i < |parameters| ensures ParsePair(pairs[i]) == parameters[i] {
        KeyValueParses(parameters[i]);
      }
    }
  }

  /** Without percent-encoding, a value holding '&' and '=' reads as two
      parameters: different parameter lists give the same query string. */
  lemma QueryStringAmbiguous()
    ensures QueryString([("a", "b&c=d")]) == QueryString([("a", "b"), ("c", "d")])
  {
  }

  /** The request's verb depends on the endpoint's verb only up to letter case,
      and it holds no lower-case letter. */
  lemma BuiltMethodIgnoresCase(
    r1: URLRequest, t1: TargetType, r2: URLRequest, t2: TargetType,
    serialize: Parameters -> Option<seq<byte>>, isValidURL: string -> bool)
    requires IsBuiltFrom(r1, t1, serialize, isValidURL)
    requires IsBuiltFrom(r2, t2, serialize, isValidURL)
    ensures r1.httpMethod == r2.httpMethod <==> EqualIgnoringCase(t1.httpMethod, t2.httpMethod)
    ensures forall i :: 0 <= i < |r1.httpMethod| ==> !IsLower(r1.httpMethod[i])
  {
    UpperEqualIff(t1.httpMethod, t2.httpMethod);
    UpperHasNoLower(t1.httpMethod);
  }

  /** With `.url` encoding, the part of the URL after the first '?' is the
      query string (when the base address and path hold no '?'), and it reads
      back as the parameters when they are unambiguous. */
  lemma BuiltUrlQuery(
    r: URLRequest, target: TargetType,
    serialize: Parameters -> Option<seq<byte>>, isValidURL: string -> bool)
    requires IsBuiltFrom(r, target, serialize, isValidURL)
    requires target.task.RequestParameters? && target.task.encoding == Url
    requires '?' !in target.baseURL && '?' !in target.path
    requires r.url.Some?
    ensures r.httpBody == None
    ensures SplitOnce(r.url.value, '?') == Some((Address(target), QueryString(target.task.parameters)))
    ensures UnambiguousParameters(target.task.parameters) ==>
      ParseQuery(SplitOnce(r.url.value, '?').value.1) == target.task.parameters
  {
    SplitOnceAppend(Address(target), QueryString(target.task.parameters), '?');
    if UnambiguousParameters(target.task.parameters) {
      ParseQueryString(target.task.parameters);
    }
  }

  /** With `.url` encoding and no parameters the URL still ends in '?'. */
  lemma BuiltUrlNoParameters(
    r: URLRequest, target: TargetType,
    serialize: Parameters -> Option<seq<byte>>, isValidURL: string -> bool)
    requires IsBuiltFrom(r, target, serialize, isValidURL)
    requires target.task == RequestParameters([], Url)
    ensures r.url == URLFromString(Address(target) + "?", isValidURL)
  {
    assert QueryString([]) == [];
    assert Address(target) + "?" + [] == Address(target) + "?";
  }

  /** A search endpoint with one `.url` parameter. */
  lemma SearchEndpoint(
    r: URLRequest, serialize: Parameters -> Option<seq<byte>>, isValidURL: string -> bool)
    requires IsBuiltFrom(r,
      TargetType("https://api.test", "/search", "get", None, RequestParameters([("q", "swift")], Url)),
      serialize, isValidURL)
    requires isValidURL("https://api.test/search?q=swift")
    ensures r.url == Some("https://api.test/search?q=swift")
    ensures r.httpMethod == "GET"
    ensures r.httpBody == None && r.allHTTPHeaderFields == None
  {
    var ps := [("q", "swift")];
    assert KeyValue(ps[0]) == "q=swift";
    assert KeyValuePairs(ps) == ["q=swift"];
    assert QueryString(ps) == "q=swift";
    assert DropTrailingSlash("https://api.test") == "https://api.test";
    assert DropLeadingSlash("/search") == "search";
    var address := AppendingPathComponent("https://api.test", "/search");
    assert address == "https://api.test/search";
    assert address + "?" + QueryString(ps) == "https://api.test/search?q=swift";
    assert Upper("get") == "GET";
  }
}
