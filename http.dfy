/**
 * The slice of Next.js's request/response objects the middleware uses, as
 * values: a response either lets the request through or redirects, and it
 * carries headers and the cookies it sets (a deleted cookie is one set to
 * the empty value with an expiry at the epoch).
 */
module Http {

  /** The value of one cookie attribute (`secure`, `sameSite`, `maxAge`, ...). */
  datatype CookieOption = Flag(b: bool) | Text(s: string) | Number(n: int)

  type CookieOptions = map<string, CookieOption>

  datatype Cookie = Cookie(value: string, options: CookieOptions)

  datatype Action = PassThrough | RedirectTo(location: string)

  datatype Response = Response(action: Action, headers: map<string, string>, cookies: map<string, Cookie>)

  /** `NextResponse.next(...)`: pass through, no headers or cookies of its own. */
  function Next(): Response
  {
    Response(PassThrough, map[], map[])
  }

  /** `NextResponse.redirect(url)`. */
  function Redirect(url: string): Response
  {
    Response(RedirectTo(url), map[], map[])
  }

  /** What `response.cookies.delete(name)` stores: an empty value that expired at the epoch. */
  const DeletedCookie: Cookie := Cookie("", map["expires" := Number(0)])
}
