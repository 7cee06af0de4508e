/**
 * Header extraction: the credential travels in the request's `authorization`
 * header and must use the `Bearer` scheme.
 */
module BearerHeader {
  import opened Wrappers

  const BearerPrefix: string := "Bearer "

  const MissingHeaderMessage: string := "Authorization header is missing."
  const WrongSchemeMessage: string := "Authorization header should use the 'Bearer' schema."

  /** The header value under which a client presents `token`. */
  function Bearer(token: string): (header: string)
    ensures BearerPrefix <= header
    ensures |header| == |BearerPrefix| + |token| && header[|BearerPrefix|..] == token
  {
    BearerPrefix + token
  }

  /**
   * The token carried by the `authorization` header (absent: None), or the
   * message of the authentication error that rejects the header.
   */
  function ExtractToken(authorization: Option<string>): (r: Result<string, string>)
    ensures authorization.None? ==> r == Failure(MissingHeaderMessage)
    ensures authorization.Some? && !(BearerPrefix <= authorization.value) ==> r == Failure(WrongSchemeMessage)
    ensures authorization.Some? && BearerPrefix <= authorization.value ==> r.Success?
    ensures r.Success? ==> authorization == Some(Bearer(r.value))
  {
    match authorization
    case None => Failure(MissingHeaderMessage)
    case Some(header) =>
      if BearerPrefix <= header then
        var token := header[|BearerPrefix|..];
        assert header[..|BearerPrefix|] == BearerPrefix;
        assert header == header[..|BearerPrefix|] + token;
        Success(token)
      else Failure(WrongSchemeMessage)
  }

  /** Extraction undoes `Bearer`: a token presented under the scheme comes back unchanged. */
  lemma ExtractBearerRoundTrip(token: string)
    ensures ExtractToken(Some(Bearer(token))) == Success(token)
  {
  }
}
