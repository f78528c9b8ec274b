/** What the HTTP layer hands back: the modelled code sees status, headers and decoded body. */
module Http {

  /** A response with a decoded body of type B. */
  datatype Response<B> = Response(status: int, headers: map<string, string>, body: B)

  /** One attempt at a request: the response and the clock reading (whole seconds since the
      epoch) taken right after it arrived. */
  datatype Attempt<B> = Attempt(response: Response<B>, now: int)
}
