/** `HTTPURLResponse.isSuccess`: the status code lies in 200..<300. */
module HTTPResponse {
  import opened Foundation

  predicate IsSuccess(response: HTTPURLResponse): (ok: bool)
    ensures ok <==> response.statusCode / 100 == 2
  {
    200 <= response.statusCode < 300
  }

  /** The status codes the unit tests name: 200, 250 and 299 are successes; 199, 300, 400 and 500
      are not. */
  lemma TestedCodes()
    ensures IsSuccess(HTTPURLResponse(200)) && IsSuccess(HTTPURLResponse(250)) && IsSuccess(HTTPURLResponse(299))
    ensures !IsSuccess(HTTPURLResponse(199)) && !IsSuccess(HTTPURLResponse(300))
    ensures !IsSuccess(HTTPURLResponse(400)) && !IsSuccess(HTTPURLResponse(500))
  {
  }

  /** The success range is exactly 100 codes wide: a code and the code 100 above it are never
      both successes, and every success code is 100 above or below a failure code. */
  lemma RangeIsOneHundredWide(code: int)
    ensures !(IsSuccess(HTTPURLResponse(code)) && IsSuccess(HTTPURLResponse(code + 100)))
    ensures IsSuccess(HTTPURLResponse(code)) ==>
              !IsSuccess(HTTPURLResponse(code - 100)) && !IsSuccess(HTTPURLResponse(code + 100))
  {
  }
}
