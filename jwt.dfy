/** The JSON Web Token service, left abstract: signing and verification are
    calls into a library, so the model receives them as functions. */
module Jwt {
  import opened Wrappers

  /** The claims of a verified access token. The services only sign
      `{ userId }`, but a token signed elsewhere may carry no `userId`. */
  datatype Payload = Payload(userId: Option<string>)

  /** `jwtService.sign({ userId })` and `jwtService.verify(token)`; `verify`
      gives None where the library throws (bad signature, malformed, expired). */
  datatype JwtService = JwtService(sign: string -> string, verify: string -> Option<Payload>)

  /** The one property of the library the model relies on, and only where a
      lemma says so: a token it signed verifies back to its claim. */
  ghost predicate SignedVerifies(jwt: JwtService)
  {
    forall u :: jwt.verify(jwt.sign(u)) == Some(Payload(Some(u)))
  }
}
