/**
  The server-side cookie store of Next.js (`cookies()` in a route handler, and
  `response.cookies` on a response), seen as a map from cookie names to a
  value and its attributes.
*/
module Cookies {
  import opened Wrappers

  /** The SameSite policy of a cookie: `'strict'`, `'lax'` or `'none'`. */
  datatype SameSite = Strict | Lax | NoRestriction

  /** The attributes the modelled code passes to `set`. */
  datatype CookieOptions = CookieOptions(httpOnly: bool, secure: bool, sameSite: SameSite, maxAge: int, path: string)

  datatype Cookie = Cookie(value: string, options: CookieOptions)

  type Jar = map<string, Cookie>

  class CookieStore {
    var cookies: Jar

    constructor (initial: Jar)
      ensures cookies == initial
    {
      cookies := initial;
    }

    /** `set(name, value, options)`: adds the cookie or replaces the one of that name. */
    method Set(name: string, value: string, options: CookieOptions)
      modifies this
      ensures cookies == old(cookies)[name := Cookie(value, options)]
    {
      cookies := cookies[name := Cookie(value, options)];
    }

    /** `get(name)`: the cookie of that name, if there is one; nothing changes. */
    method Get(name: string) returns (c: Option<Cookie>)
      ensures c.Some? <==> name in cookies
      ensures c.Some? ==> c.value == cookies[name]
    {
      c := if name in cookies then Some(cookies[name]) else None;
    }

    /** `delete(name)`: removes the cookie of that name; a missing name is not an error. */
    method Delete(name: string)
      modifies this
      ensures cookies == old(cookies) - {name}
    {
      cookies := cookies - {name};
    }
  }
}
