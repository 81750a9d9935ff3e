/** The request filter of middlewares/csrf.js: GET requests pass; any other request must
    carry a non-empty `x-csrf-token` header, whose value is never compared with anything. */
module Csrf {
  /** The parts of a request the filter reads: the method as Node reports it (upper case)
      and the headers by lower-cased name. */
  datatype Request = Request(verb: string, headers: map<string, string>)

  /** Either the request goes on to the next handler, or the filter answers it. */
  datatype Decision = Next | Reject(status: nat, error: string)

  const TokenHeader: string := "x-csrf-token"

  predicate HasToken(req: Request) {
    TokenHeader in req.headers && req.headers[TokenHeader] != ""
  }

  /** `csrfProtection(req, res, next)`. */
  function CsrfProtection(req: Request): (d: Decision)
    ensures req.verb == "GET" ==> d == Next
    ensures req.verb != "GET" ==> (d == Next <==> HasToken(req))
    ensures d.Reject? ==> d == Reject(403, "CSRF token missing")
  {
    if req.verb == "GET" then Next
    else if !HasToken(req) then Reject(403, "CSRF token missing")
    else Next
  }

  /** Any two non-empty tokens are treated alike: the value is not checked. */
  lemma AnyTokenPasses(req: Request, a: string, b: string)
    requires a != "" && b != ""
    ensures CsrfProtection(req.(headers := req.headers[TokenHeader := a])) ==
            CsrfProtection(req.(headers := req.headers[TokenHeader := b]))
    ensures CsrfProtection(req.(headers := req.headers[TokenHeader := a])) == Next
  {
  }

  /** Only the method and that one header matter: other headers change nothing. */
  lemma OtherHeadersIgnored(req: Request, name: string, value: string)
    requires name != TokenHeader
    ensures CsrfProtection(req.(headers := req.headers[name := value])) == CsrfProtection(req)
  {
    var h := req.headers[name := value];
    assert (TokenHeader in h) == (TokenHeader in req.headers);
    assert TokenHeader in h ==> h[TokenHeader] == req.headers[TokenHeader];
  }

  /** The method test is case-sensitive and exact: a HEAD request, or a lower-case "get",
      needs a token like any write. */
  lemma OnlyExactGetIsExempt(req: Request)
    requires req.verb != "GET" && !HasToken(req)
    ensures CsrfProtection(req) == Reject(403, "CSRF token missing")
  {
  }
}
