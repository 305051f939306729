/** `NetworkService`: one GET per call, whose completion is classified into
    exactly one decoded value or one typed error. The transport and the JSON
    decoder are not modelled; the service is given, for each endpoint, the
    reply its n-th request receives and a decoder that succeeds or throws. */
module Network {
  import opened Wrappers
  import opened Models

  datatype Endpoint = UsersEndpoint | StatisticsEndpoint

  /** The response object handed to the completion handler: an HTTP response
      with its status code, or a response of another kind. */
  datatype URLResponse = HTTPURLResponse(statusCode: int) | OtherURLResponse

  /** What `dataTask` passes its completion handler: error, response, body. */
  datatype Exchange = Exchange(error: Option<SystemError>, response: Option<URLResponse>, data: Option<seq<bv8>>)

  predicate IsHTTP(x: Exchange) {
    x.response.Some? && x.response.value.HTTPURLResponse?
  }

  /** `(200...299).contains(statusCode)`. */
  predicate IsSuccessStatus(statusCode: int) {
    200 <= statusCode <= 299
  }

  /** The guard chain of `fetch`: transport error, then the kind of response,
      then the status, then the body, then decoding. */
  function Classify<T>(x: Exchange, decode: seq<bv8> -> Result<T, SystemError>): (r: Result<T, NetworkError>)
    ensures r.Success? <==> x.error.None? && IsHTTP(x) && IsSuccessStatus(x.response.value.statusCode)
                            && x.data.Some? && decode(x.data.value).Success?
    ensures r.Success? ==> r.value == decode(x.data.value).value
    ensures r.Failure? ==> !r.error.InvalidURL?
  {
    if x.error.Some? then Failure(NetworkError(x.error.value))
    else if !IsHTTP(x) then Failure(NoData)
    else if !IsSuccessStatus(x.response.value.statusCode) then Failure(ServerError(x.response.value.statusCode))
    else if x.data.None? then Failure(NoData)
    else match decode(x.data.value)
      case Success(v) => Success(v)
      case Failure(e) => Failure(DecodingError(e))
  }

  /** A transport error wins over whatever response and body came with it. */
  lemma TransportErrorWins<T>(x: Exchange, decode: seq<bv8> -> Result<T, SystemError>)
    requires x.error.Some?
    ensures Classify(x, decode) == Failure(NetworkError(x.error.value))
  {
  }

  /** A reply that is not HTTP reads as "no data", whatever its body. */
  lemma NonHTTPIsNoData<T>(x: Exchange, decode: seq<bv8> -> Result<T, SystemError>)
    requires x.error.None? && !IsHTTP(x)
    ensures Classify(x, decode) == Failure(NoData)
  {
  }

  /** A status outside 200...299 is a server error carrying that status, even
      when a body that would decode came with it. */
  lemma StatusOutsideRangeIsServerError<T>(x: Exchange, decode: seq<bv8> -> Result<T, SystemError>, status: int)
    requires x.error.None? && x.response == Some(HTTPURLResponse(status)) && !IsSuccessStatus(status)
    ensures Classify(x, decode) == Failure(ServerError(status))
  {
  }

  /** A successful status without a body reads as "no data". */
  lemma MissingBodyIsNoData<T>(x: Exchange, decode: seq<bv8> -> Result<T, SystemError>)
    requires x.error.None? && IsHTTP(x) && IsSuccessStatus(x.response.value.statusCode) && x.data.None?
    ensures Classify(x, decode) == Failure(NoData)
  {
  }

  /** Past the guards, the decoder decides: its value, or its error wrapped. */
  lemma BodyIsDecoded<T>(x: Exchange, decode: seq<bv8> -> Result<T, SystemError>)
    requires x.error.None? && IsHTTP(x) && IsSuccessStatus(x.response.value.statusCode) && x.data.Some?
    ensures decode(x.data.value).Success? ==> Classify(x, decode) == Success(decode(x.data.value).value)
    ensures decode(x.data.value).Failure? ==> Classify(x, decode) == Failure(DecodingError(decode(x.data.value).error))
  {
  }

  function UsersOf(r: UsersResponse): seq<User> {
    r.users
  }

  function StatisticsOf(r: StatisticsResponse): seq<StatisticsItem> {
    r.statistics
  }

  class NetworkService {
    /** The requests made so far, oldest first. */
    var requests: seq<Endpoint>
    /** The exchange the n-th request (from 0) to an endpoint receives. */
    const replies: (Endpoint, nat) -> Exchange
    /** `JSONDecoder().decode(UsersResponse.self, from:)`. */
    const decodeUsers: seq<bv8> -> Result<UsersResponse, SystemError>
    /** `JSONDecoder().decode(StatisticsResponse.self, from:)`. */
    const decodeStatistics: seq<bv8> -> Result<StatisticsResponse, SystemError>

    constructor (replies: (Endpoint, nat) -> Exchange,
                 decodeUsers: seq<bv8> -> Result<UsersResponse, SystemError>,
                 decodeStatistics: seq<bv8> -> Result<StatisticsResponse, SystemError>)
      ensures requests == []
      ensures this.replies == replies && this.decodeUsers == decodeUsers && this.decodeStatistics == decodeStatistics
    {
      requests := [];
      this.replies := replies;
      this.decodeUsers := decodeUsers;
      this.decodeStatistics := decodeStatistics;
    }

    /** The exchange the next request to `endpoint` will receive. */
    function NextExchange(endpoint: Endpoint): Exchange
      reads this
    {
      replies(endpoint, multiset(requests)[endpoint])
    }

    /** What the next `fetchUsers()` will emit. */
    function NextUsersReply(): (r: Result<seq<User>, NetworkError>)
      reads this
    {
      MapSuccess(Classify(NextExchange(UsersEndpoint), decodeUsers), UsersOf)
    }

    /** What the next `fetchStatistics()` will emit. */
    function NextStatisticsReply(): (r: Result<seq<StatisticsItem>, NetworkError>)
      reads this
    {
      MapSuccess(Classify(NextExchange(StatisticsEndpoint), decodeStatistics), StatisticsOf)
    }

    /** `fetch(endpoint:responseType:)`: one request, classified. */
    method Fetch<T>(endpoint: Endpoint, decode: seq<bv8> -> Result<T, SystemError>)
      returns (result: Result<T, NetworkError>)
      modifies this
      ensures requests == old(requests) + [endpoint]
      ensures result == Classify(old(NextExchange(endpoint)), decode)
    {
      var exchange := replies(endpoint, multiset(requests)[endpoint]);
      requests := requests + [endpoint];
      result := Classify(exchange, decode);
    }

    /** `fetchUsers()`: the `users` field of the decoded envelope. */
    method FetchUsers() returns (result: Result<seq<User>, NetworkError>)
      modifies this
      ensures requests == old(requests) + [UsersEndpoint]
      ensures result == old(NextUsersReply())
    {
      var response := Fetch(UsersEndpoint, decodeUsers);
      result := MapSuccess(response, UsersOf);
    }

    /** `fetchStatistics()`: the `statistics` field of the decoded envelope. */
    method FetchStatistics() returns (result: Result<seq<StatisticsItem>, NetworkError>)
      modifies this
      ensures requests == old(requests) + [StatisticsEndpoint]
      ensures result == old(NextStatisticsReply())
    {
      var response := Fetch(StatisticsEndpoint, decodeStatistics);
      result := MapSuccess(response, StatisticsOf);
    }
  }

  /** A request to one endpoint does not move the other endpoint's replies on. */
  lemma OtherEndpointUnaffected(requests: seq<Endpoint>, made: Endpoint, other: Endpoint)
    requires made != other
    ensures multiset(requests + [made])[other] == multiset(requests)[other]
  {
  }
}
