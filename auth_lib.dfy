/** The password hasher and the token signer the handlers import. Their
    implementations are not part of this model: a hasher is a pair of
    functions of which only `verify(p, hash(p))` is assumed, and a signer
    is any function from claims to a token string. */
module AuthLib {

  /** `hashPassword` and `verifyPassword`. */
  datatype Hasher = Hasher(hash: string -> string, verify: (string, string) -> bool)

  /** The one property assumed of bcrypt: a password verifies against its own hash. */
  ghost predicate Sound(h: Hasher)
  {
    forall p :: h.verify(p, h.hash(p))
  }

  /** The payload `signToken` receives and `verifyToken` gives back. */
  datatype Claims = Claims(userId: string, username: string)

  /** `signToken`. */
  type Signer = Claims -> string

  /** The `response.cookies.set('token', token, {...})` record. */
  datatype Cookie = Cookie(
    name: string, value: string, httpOnly: bool, secure: bool,
    maxAge: nat, path: string, sameSite: string)

  /** `60 * 60 * 24 * 30`: thirty days, in seconds. */
  const SessionMaxAge: nat := 60 * 60 * 24 * 30

  /** The cookie that register and login set; `secure` follows
      `process.env.NODE_ENV === 'production'`. */
  function SessionCookie(token: string, production: bool): (c: Cookie)
    ensures c.name == "token" && c.value == token
    ensures c.httpOnly && c.sameSite == "strict" && c.path == "/"
    ensures c.maxAge == 2592000 && c.secure == production
  {
    Cookie("token", token, true, production, SessionMaxAge, "/", "strict")
  }
}
