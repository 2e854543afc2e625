/**
 * `APIService.send`: build the `URLRequest`, hand it to the session, and route
 * the answer. A non-2xx status is classified into an error without decoding
 * the response body type; a 2xx answer is decoded, an empty body being read
 * as `{}`. The session, the response decoder and the error-body decoder are
 * supplied as functions; logging and timing are not modelled.
 */
module APIService {
  import opened Wrappers
  import opened Foundation
  import opened APIErrors
  import opened APIRequest
  import opened HTTPResponse

  /** `error(response:data:errorType:decoder:)`: 401 first, then an empty body, then the error
      body decoded as the caller's error type, or the decoding error. */
  function ErrorFor<CustomError, SessionError>(response: HTTPURLResponse, data: Bytes,
                                               decodeError: Bytes -> Result<CustomError, DecodingError>)
    : (e: ServiceError<CustomError, SessionError>)
    ensures response.statusCode == 401 ==> e == API(Unauthorized)
    ensures response.statusCode != 401 && |data| == 0 ==> e == API(ResponseFailedWithoutErrorBody(response))
    ensures response.statusCode != 401 && |data| > 0 ==>
              e == match decodeError(data)
                   case Success(body) => Domain(ResponseFailedWithError(body))
                   case Failure(cause) => API(ResponseErrorFailedToDecode(cause))
    ensures e.API? || e.Domain?
  {
    if response.statusCode == 401 then API(Unauthorized)
    else if |data| == 0 then API(ResponseFailedWithoutErrorBody(response))
    else match decodeError(data)
      case Success(body) => Domain(ResponseFailedWithError(body))
      case Failure(cause) => API(ResponseErrorFailedToDecode(cause))
  }

  /** The bytes a 2xx body is decoded from: the body, or `{}` when it is empty. */
  function DataToDecode(data: Bytes): (r: Bytes)
    ensures |r| > 0
    ensures |data| > 0 ==> r == data
  {
    if |data| == 0 then EmptyObjectText else data
  }

  /** What the completion handler receives for the session's answer. */
  function Route<ResponseBody, CustomError, SessionError>(
    answer: Result<URLSessionResponse, SessionError>,
    decodeBody: Bytes -> Result<ResponseBody, DecodingError>,
    decodeError: Bytes -> Result<CustomError, DecodingError>)
    : (r: Result<ResponseBody, ServiceError<CustomError, SessionError>>)
    ensures answer.Failure? ==> r == Failure(Session(answer.error))
    ensures answer.Success? && !IsSuccess(answer.value.response) ==>
              r == Failure(ErrorFor(answer.value.response, answer.value.data, decodeError))
    ensures answer.Success? && IsSuccess(answer.value.response) ==>
              r == match decodeBody(DataToDecode(answer.value.data))
                   case Success(body) => Success(body)
                   case Failure(cause) => Failure(Decoding(cause))
  {
    match answer
    case Failure(e) => Failure(Session(e))
    case Success(URLSessionResponse(data, response)) =>
      if !IsSuccess(response) then Failure(ErrorFor(response, data, decodeError))
      else match decodeBody(DataToDecode(data))
        case Success(body) => Success(body)
        case Failure(cause) => Failure(Decoding(cause))
  }

  /** A build failure as the error the completion handler receives. */
  function BuildError<CustomError, SessionError>(e: RequestError): (r: ServiceError<CustomError, SessionError>)
    ensures e.BuildFailed? ==> r == API(e.apiError)
    ensures e.BodyEncodingFailed? ==> r == Encoding(e.encodingError)
  {
    match e
    case BuildFailed(a) => API(a)
    case BodyEncodingFailed(c) => Encoding(c)
  }

  class APIService {
    var accessToken: Option<string>
    var baseURLString: string
    var defaultHeaders: map<string, string>

    constructor(baseURLString: string, defaultHeaders: map<string, string>)
      ensures this.baseURLString == baseURLString && this.defaultHeaders == defaultHeaders
      ensures accessToken.None?
    {
      this.baseURLString := baseURLString;
      this.defaultHeaders := defaultHeaders;
      accessToken := None;
    }

    /** `send(_:completionHandler:)`. Returns the request handed to the session (`None` when
        building it failed and the session was never called) and the one result the completion
        handler receives. */
    method Send<B, ResponseBody, CustomError, SessionError>(
      p: Platform,
      apiRequest: APIRequestType<B>,
      encode: B -> Result<Bytes, EncodingError>,
      session: URLRequest -> Result<URLSessionResponse, SessionError>,
      decodeBody: Bytes -> Result<ResponseBody, DecodingError>,
      decodeError: Bytes -> Result<CustomError, DecodingError>)
      returns (sent: Option<URLRequest>, result: Result<ResponseBody, ServiceError<CustomError, SessionError>>)
      ensures var built := URLRequestFor(p, apiRequest, baseURLString, accessToken, defaultHeaders, encode);
              match built
              case Failure(e) => sent.None? && result == Failure(BuildError(e))
              case Success(request) =>
                sent == Some(request) && result == Route(session(request), decodeBody, decodeError)
    {
      var request := UrlRequest(p, apiRequest, baseURLString, accessToken, defaultHeaders, encode);
      if request.Failure? {
        return None, Failure(BuildError(request.error));
      }
      sent := Some(request.value);
      var answer := session(request.value);
      match answer {
        case Failure(e) =>
          result := Failure(Session(e));
        case Success(URLSessionResponse(data, httpResponse)) =>
          if !IsSuccess(httpResponse) {
            result := Failure(ErrorFor(httpResponse, data, decodeError));
            return;
          }
          var dataToDecode := DataToDecode(data);
          var serialized := decodeBody(dataToDecode);
          if serialized.Success? {
            result := Success(serialized.value);
          } else {
            result := Failure(Decoding(serialized.error));
          }
      }
    }
  }

  /** A non-2xx answer is never decoded as the response type: the result does not depend on the
      response decoder. */
  lemma ErrorStatusIgnoresResponseDecoder<ResponseBody, CustomError, SessionError>(
    response: URLSessionResponse,
    decodeA: Bytes -> Result<ResponseBody, DecodingError>,
    decodeB: Bytes -> Result<ResponseBody, DecodingError>,
    decodeError: Bytes -> Result<CustomError, DecodingError>)
    requires !IsSuccess(response.response)
    ensures Route<ResponseBody, CustomError, SessionError>(Success(response), decodeA, decodeError)
         == Route<ResponseBody, CustomError, SessionError>(Success(response), decodeB, decodeError)
    ensures Route<ResponseBody, CustomError, SessionError>(Success(response), decodeA, decodeError).Failure?
  {
  }

  /** 401 is `unauthorized` whatever the body, even an empty one. */
  lemma UnauthorizedWhateverTheBody<ResponseBody, CustomError, SessionError>(
    data: Bytes,
    decodeBody: Bytes -> Result<ResponseBody, DecodingError>,
    decodeError: Bytes -> Result<CustomError, DecodingError>)
    ensures Route<ResponseBody, CustomError, SessionError>(
              Success(URLSessionResponse(data, HTTPURLResponse(401))), decodeBody, decodeError)
         == Failure(API(Unauthorized))
  {
  }

  /** A 2xx answer with an empty body is decoded exactly as the body `{}` would be. */
  lemma EmptySuccessIsEmptyObject<ResponseBody, CustomError, SessionError>(
    response: HTTPURLResponse,
    decodeBody: Bytes -> Result<ResponseBody, DecodingError>,
    decodeError: Bytes -> Result<CustomError, DecodingError>)
    requires IsSuccess(response)
    ensures Route<ResponseBody, CustomError, SessionError>(Success(URLSessionResponse([], response)), decodeBody, decodeError)
         == Route<ResponseBody, CustomError, SessionError>(Success(URLSessionResponse(EmptyObjectText, response)), decodeBody, decodeError)
  {
  }

  /** An answer whose status is a success is never classified as an HTTP error: the result is the
      decoder's value or its decoding error. */
  lemma SuccessStatusIsDecoded<ResponseBody, CustomError, SessionError>(
    response: URLSessionResponse,
    decodeBody: Bytes -> Result<ResponseBody, DecodingError>,
    decodeError: Bytes -> Result<CustomError, DecodingError>)
    requires IsSuccess(response.response)
    ensures var r := Route<ResponseBody, CustomError, SessionError>(Success(response), decodeBody, decodeError);
            r.Success? || r.error.Decoding?
  {
  }
}
