/** The parts of an HTTP reply that the handlers and the security gate write. */
module Http {

  /** The four user fields a success body exposes: no password hash, no timestamps, no token. */
  datatype PublicUser = PublicUser(id: nat, name: string, email: string, role: string)

  /** The JSON bodies written with `res.json`, one constructor per object shape. */
  datatype Body =
    | ErrorDetails(error: string, details: string)     // { error, details }
    | ErrorOnly(error: string)                         // { error }
    | ErrorMessage(error: string, message: string)     // { error, message }
    | UserEnvelope(message: string, user: PublicUser)  // { message, user }
    | MessageOnly(message: string)                     // { message }

  /** What a handler does to the session cookie before it writes the reply. */
  datatype CookieAction = NoCookie | SetCookie(name: string, value: string) | ClearCookie(name: string)

  /** A written reply: `res.status(status).json(body)` after the cookie action. */
  datatype Response = Response(status: nat, body: Body, cookie: CookieAction)
}
