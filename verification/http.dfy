/**
 The shapes the route handlers answer with: an HTTP status and a JSON body,
 and the session lookup every authenticated route starts with.
 */
module Http {
  import opened Outcomes
  import opened GenerationModel

  /** A user as the signup route returns it: the password is not a field. */
  datatype PublicUser = PublicUser(id: string, username: string)

  /** The JSON bodies the routes send. */
  datatype Body =
    | Message(message: string)
      /** `{ message, error }` of the upload route's final `catch`. */
    | Failure(message: string, error: string)
    | Uploaded(generatedContent: string, message: string, id: string)
    | GenerationList(generations: seq<Generation>)
    | Created(message: string, generation: Generation)
    | Registered(message: string, user: PublicUser)

  datatype Response = Response(status: int, body: Body)

  /** The caller's user id from `getServerSession`: the guard
      `!session || !session.user || !session.user.id` lets only a
      non-empty id through. */
  function SessionUserId(session: Option<string>): (r: Option<string>)
    ensures r.Some? <==> session.Some? && session.value != ""
    ensures r.Some? ==> r.value == session.value
  {
    if session.Some? && session.value != "" then session else None
  }

  const Unauthorized := Response(401, Message("Unauthorized"))
}
